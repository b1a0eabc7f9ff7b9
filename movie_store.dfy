/**
 * The shared `movies` array of src/index.js and the list operations the
 * route handlers perform on it: `find`, `findIndex`, the genre `filter`,
 * the object spread that PATCH writes back, and `splice`.
 */
module MovieStore {
  import opened Wrappers
  import opened JsValues
  import opened MovieSchema

  /** A stored record: its id and the schema fields. */
  datatype Movie = Movie(id: string, data: MovieData)

  predicate HasId(s: seq<Movie>, id: string)
  {
    exists k :: 0 <= k < |s| && s[k].id == id
  }

  /** Position `k` holds the first record with this id. */
  predicate FirstAt(s: seq<Movie>, id: string, k: nat)
  {
    k < |s| && s[k].id == id && forall j :: 0 <= j < k ==> s[j].id != id
  }

  /** No two records share an id. */
  ghost predicate UniqueIds(s: seq<Movie>)
  {
    forall j, k :: 0 <= j < k < |s| ==> s[j].id != s[k].id
  }

  lemma FirstAtUnique(s: seq<Movie>, id: string, j: nat, k: nat)
    requires FirstAt(s, id, j) && FirstAt(s, id, k)
    ensures j == k
  {
  }

  /** `movies.findIndex(m => m.id === id)`, with `None` for `-1`. */
  function FindIndex(s: seq<Movie>, id: string): (r: Option<nat>)
    ensures r.None? <==> !HasId(s, id)
    ensures r.Some? ==> FirstAt(s, id, r.value)
  {
    if |s| == 0 then None
    else if s[0].id == id then Some(0)
    else
      match FindIndex(s[1..], id)
      case None =>
        assert forall k :: 1 <= k < |s| ==> s[k] == s[1..][k - 1];
        None
      case Some(k) =>
        assert forall j :: 1 <= j <= k + 1 ==> s[j] == s[1..][j - 1];
        Some(k + 1)
  }

  /** `movies.find(m => m.id === id)`, with `None` for `undefined`. */
  function FindById(s: seq<Movie>, id: string): (r: Option<Movie>)
    ensures r.None? <==> !HasId(s, id)
    ensures r.Some? ==> r.value.id == id && exists k: nat :: FirstAt(s, id, k) && s[k] == r.value
  {
    match FindIndex(s, id)
    case None => None
    case Some(k) => Some(s[k])
  }

  /** `movie.genre.some(g => g.toLowerCase() === genre.toLowerCase())`. */
  predicate MatchesGenre(m: Movie, q: string)
  {
    exists g :: g in m.data.genre && Lower(g) == Lower(q)
  }

  /** `movies.filter(...)` with the genre test above. */
  function FilterByGenre(s: seq<Movie>, q: string): (r: seq<Movie>)
    ensures |r| <= |s|
    ensures forall m :: m in r <==> m in s && MatchesGenre(m, q)
  {
    if |s| == 0 then []
    else
      assert s == [s[0]] + s[1..];
      (if MatchesGenre(s[0], q) then [s[0]] else []) + FilterByGenre(s[1..], q)
  }

  /** Filtering distributes over concatenation, so it keeps the store's order. */
  lemma {:induction false} FilterAppend(a: seq<Movie>, b: seq<Movie>, q: string)
    ensures FilterByGenre(a + b, q) == FilterByGenre(a, q) + FilterByGenre(b, q)
    decreases |a|
  {
    if |a| == 0 {
      assert a + b == b;
    } else {
      assert (a + b)[0] == a[0];
      assert (a + b)[1..] == a[1..] + b;
      FilterAppend(a[1..], b, q);
    }
  }

  /** A record occurs in the result as often as in the store when it matches, else never. */
  lemma {:induction false} FilterCount(s: seq<Movie>, q: string, m: Movie)
    ensures multiset(FilterByGenre(s, q))[m] == if MatchesGenre(m, q) then multiset(s)[m] else 0
    decreases |s|
  {
    if |s| != 0 {
      FilterCount(s[1..], q, m);
      assert s == [s[0]] + s[1..];
      assert multiset(s) == multiset{s[0]} + multiset(s[1..]);
    }
  }

  /** Filtering a filtered list by the same genre changes nothing. */
  lemma {:induction false} FilterIdempotent(s: seq<Movie>, q: string)
    ensures FilterByGenre(FilterByGenre(s, q), q) == FilterByGenre(s, q)
    decreases |s|
  {
    if |s| != 0 {
      var rest := FilterByGenre(s[1..], q);
      FilterIdempotent(s[1..], q);
      if MatchesGenre(s[0], q) {
        assert FilterByGenre(s, q) == [s[0]] + rest;
        FilterAppend([s[0]], rest, q);
        assert FilterByGenre([s[0]], q) == [s[0]] by {
          assert [s[0]][1..] == [];
          assert [s[0]][0] == s[0];
        }
      } else {
        assert FilterByGenre(s, q) == [] + rest;
        assert [] + rest == rest;
      }
    }
  }

  /** Two queries that lower-case alike select the same records, in the same order. */
  lemma {:induction false} FilterIgnoresCase(s: seq<Movie>, q1: string, q2: string)
    requires Lower(q1) == Lower(q2)
    ensures FilterByGenre(s, q1) == FilterByGenre(s, q2)
    decreases |s|
  {
    if |s| != 0 {
      FilterIgnoresCase(s[1..], q1, q2);
    }
  }

  /** Searching for "action" and for "Action" give identical results. */
  lemma ActionAnyCase(s: seq<Movie>)
    ensures FilterByGenre(s, "action") == FilterByGenre(s, "Action")
  {
    assert Lower("Action") == Lower("action") by {
      assert Lower("Action")[0] == 'a';
    }
    FilterIgnoresCase(s, "action", "Action");
  }

  /** `movies.splice(i, 1)`: the list without position `i`. */
  function RemoveAt(s: seq<Movie>, i: nat): (r: seq<Movie>)
    requires i < |s|
    ensures |r| == |s| - 1
    ensures forall j :: 0 <= j < i ==> r[j] == s[j]
    ensures forall j :: i <= j < |r| ==> r[j] == s[j + 1]
  {
    s[..i] + s[i + 1..]
  }

  /** Removing a position drops exactly that record and keeps every other one. */
  lemma RemoveAtMultiset(s: seq<Movie>, i: nat)
    requires i < |s|
    ensures multiset(RemoveAt(s, i)) + multiset{s[i]} == multiset(s)
  {
    assert s == s[..i] + [s[i]] + s[i + 1..];
  }

  /** Removal keeps ids unique. */
  lemma RemoveKeepsUnique(s: seq<Movie>, i: nat)
    requires i < |s| && UniqueIds(s)
    ensures UniqueIds(RemoveAt(s, i))
  {
    var r := RemoveAt(s, i);
    forall j, k | 0 <= j < k < |r|
      ensures r[j].id != r[k].id
    {
      var j' := if j < i then j else j + 1;
      var k' := if k < i then k else k + 1;
      assert r[j] == s[j'] && r[k] == s[k'];
    }
  }

  /** Appending a record whose id is new keeps ids unique. */
  lemma AppendKeepsUnique(s: seq<Movie>, m: Movie)
    requires UniqueIds(s) && !HasId(s, m.id)
    ensures UniqueIds(s + [m])
  {
    var t := s + [m];
    forall j, k | 0 <= j < k < |t|
      ensures t[j].id != t[k].id
    {
      assert t[j] == s[j];
    }
  }

  /** With unique ids, deleting the match for `id` leaves no record with that id. */
  lemma RemoveFoundLeavesNone(s: seq<Movie>, id: string)
    requires UniqueIds(s) && HasId(s, id)
    ensures !HasId(RemoveAt(s, FindIndex(s, id).value), id)
  {
    var i := FindIndex(s, id).value;
    var r := RemoveAt(s, i);
    forall k | 0 <= k < |r|
      ensures r[k].id != id
    {
      if k < i {
        assert r[k] == s[k];
      } else {
        assert r[k] == s[k + 1];
      }
    }
  }

  /** The record that `{...old, ...data}` builds: supplied fields win, the rest stay. */
  function Merge(d: MovieData, p: PartialMovie): MovieData
  {
    MovieData(
      if p.title.Some? then p.title.value else d.title,
      if p.year.Some? then p.year.value else d.year,
      if p.director.Some? then p.director.value else d.director,
      if p.duration.Some? then p.duration.value else d.duration,
      if p.poster.Some? then p.poster.value else d.poster,
      if p.genre.Some? then p.genre.value else d.genre,
      if p.rate.Some? then p.rate.value else d.rate)
  }

  /** Every stored record meets the schema's invariant. */
  predicate AllValid(s: seq<Movie>, isUrl: string -> bool)
  {
    forall k :: 0 <= k < |s| ==> ValidData(s[k].data, isUrl)
  }

  /**
   * A PATCH keeps a record valid: the fields a valid partial body supplies
   * meet the same bounds as those of a full body.
   */
  lemma MergeKeepsValid(d: MovieData, body: Json, isUrl: string -> bool)
    requires ValidData(d, isUrl) && ValidatePartialMovie(body, isUrl).Success?
    ensures ValidData(Merge(d, ValidatePartialMovie(body, isUrl).value), isUrl)
  {
    var p := ValidatePartialMovie(body, isUrl).value;
    var m := body.fields;
    ValidatePartialAccepts(body, isUrl);
    assert !PartialRejects(m, Title, isUrl) && !PartialRejects(m, Year, isUrl);
    assert !PartialRejects(m, Duration, isUrl) && !PartialRejects(m, Poster, isUrl);
    assert !PartialRejects(m, Rate, isUrl);
    if p.title.Some? {
      TrimIdempotent(m["title"].s);
    }
  }

  /** Writing a merged record back keeps every stored record valid. */
  lemma UpdateKeepsValid(s: seq<Movie>, i: nat, body: Json, isUrl: string -> bool)
    requires i < |s| && AllValid(s, isUrl) && ValidatePartialMovie(body, isUrl).Success?
    ensures AllValid(UpdateAt(s, i, ValidatePartialMovie(body, isUrl).value), isUrl)
  {
    MergeKeepsValid(s[i].data, body, isUrl);
  }

  /** Appending a valid record keeps every stored record valid. */
  lemma AppendKeepsValid(s: seq<Movie>, m: Movie, isUrl: string -> bool)
    requires AllValid(s, isUrl) && ValidData(m.data, isUrl)
    ensures AllValid(s + [m], isUrl)
  {
    var t := s + [m];
    forall k | 0 <= k < |t|
      ensures ValidData(t[k].data, isUrl)
    {
      if k < |s| {
        assert t[k] == s[k];
      }
    }
  }

  /** The JSON value a partial result supplies for key `k`, if any. */
  function PartialAt(p: PartialMovie, k: string): Option<Json>
  {
    if k == "title" && p.title.Some? then Some(JStr(p.title.value))
    else if k == "year" && p.year.Some? then Some(JNum(p.year.value as real))
    else if k == "director" && p.director.Some? then Some(JStr(p.director.value))
    else if k == "duration" && p.duration.Some? then Some(JNum(p.duration.value as real))
    else if k == "poster" && p.poster.Some? then Some(JStr(p.poster.value))
    else if k == "genre" && p.genre.Some? then Some(JArr(StringsJson(p.genre.value)))
    else if k == "rate" && p.rate.Some? then Some(JNum(p.rate.value))
    else None
  }

  /** The object holding only the keys a partial result supplies. */
  function PartialJson(p: PartialMovie): map<string, Json>
  {
    map k | k in SchemaKeys && PartialAt(p, k).Some? :: PartialAt(p, k).value
  }

  /** A stored record as the JSON object the handlers hold and send. */
  function RecordJson(m: Movie): map<string, Json>
  {
    MovieJson(m.data).fields["id" := JStr(m.id)]
  }

  lemma MergeAtKey(d: MovieData, p: PartialMovie, k: string)
    requires k in SchemaKeys
    ensures k in MovieJson(Merge(d, p)).fields && k in MovieJson(d).fields
    ensures MovieJson(Merge(d, p)).fields[k]
         == if PartialAt(p, k).Some? then PartialAt(p, k).value else MovieJson(d).fields[k]
  {
  }

  /** Keys and values of the spread `{...MovieJson(d), ...PartialJson(p)}`. */
  lemma SpreadAt(d: MovieData, p: PartialMovie, k: string)
    requires k in SchemaKeys
    ensures k in MovieJson(d).fields + PartialJson(p)
    ensures (MovieJson(d).fields + PartialJson(p))[k]
         == if PartialAt(p, k).Some? then PartialAt(p, k).value else MovieJson(d).fields[k]
  {
    MovieJsonValues(d);
  }

  /** Merge is the object spread: the old object with the supplied keys written over it. */
  lemma MergeIsSpread(d: MovieData, p: PartialMovie)
    ensures MovieJson(Merge(d, p)).fields == MovieJson(d).fields + PartialJson(p)
  {
    var lhs := MovieJson(Merge(d, p)).fields;
    var rhs := MovieJson(d).fields + PartialJson(p);
    MovieJsonValues(d);
    MovieJsonValues(Merge(d, p));
    assert rhs.Keys == SchemaKeys;
    forall k | k in SchemaKeys
      ensures lhs[k] == rhs[k]
    {
      MergeAtKey(d, p, k);
      SpreadAt(d, p, k);
    }
  }

  /** The record PATCH stores: the spread keeps `id`, which no partial result carries. */
  lemma PatchedRecordIsSpread(m: Movie, p: PartialMovie)
    ensures RecordJson(Movie(m.id, Merge(m.data, p))) == RecordJson(m) + PartialJson(p)
  {
    MergeIsSpread(m.data, p);
    var lhs := RecordJson(Movie(m.id, Merge(m.data, p)));
    var rhs := RecordJson(m) + PartialJson(p);
    assert "id" !in PartialJson(p);
    assert lhs.Keys == rhs.Keys;
    forall k | k in lhs.Keys
      ensures lhs[k] == rhs[k]
    {
      if k != "id" {
        assert lhs[k] == MovieJson(Merge(m.data, p)).fields[k];
      }
    }
  }

  /** A partial result with no fields changes nothing. */
  lemma MergeNothing(d: MovieData)
    ensures Merge(d, PartialMovie(None, None, None, None, None, None, None)) == d
  {
  }

  /** Applying the same partial result twice is applying it once. */
  lemma MergeIdempotent(d: MovieData, p: PartialMovie)
    ensures Merge(Merge(d, p), p) == Merge(d, p)
  {
  }

  /** A partial result carrying every field replaces the record outright. */
  lemma MergeEverything(d: MovieData, e: MovieData)
    ensures Merge(d, AsPartial(e, true)) == e
  {
  }

  /** `movies[i] = {...movies[i], ...data}`. */
  function UpdateAt(s: seq<Movie>, i: nat, p: PartialMovie): (r: seq<Movie>)
    requires i < |s|
    ensures |r| == |s|
    ensures r[i] == Movie(s[i].id, Merge(s[i].data, p))
    ensures forall j :: 0 <= j < |s| && j != i ==> r[j] == s[j]
  {
    s[i := Movie(s[i].id, Merge(s[i].data, p))]
  }

  /** An update keeps the id at every position, so every lookup lands where it did. */
  lemma UpdateKeepsLookups(s: seq<Movie>, i: nat, p: PartialMovie, id: string)
    requires i < |s|
    ensures forall j :: 0 <= j < |s| ==> UpdateAt(s, i, p)[j].id == s[j].id
    ensures FindIndex(UpdateAt(s, i, p), id) == FindIndex(s, id)
    ensures UniqueIds(s) ==> UniqueIds(UpdateAt(s, i, p))
  {
    var r := UpdateAt(s, i, p);
    assert forall j :: 0 <= j < |s| ==> r[j].id == s[j].id;
    match FindIndex(s, id)
    case None =>
    case Some(k) =>
      assert FirstAt(r, id, k);
      FirstAtUnique(r, id, k, FindIndex(r, id).value);
  }

  /** After updating the match for `id`, looking `id` up returns the merged record. */
  lemma FindAfterUpdate(s: seq<Movie>, id: string, p: PartialMovie)
    requires HasId(s, id)
    ensures FindById(UpdateAt(s, FindIndex(s, id).value, p), id)
         == Some(Movie(id, Merge(FindById(s, id).value.data, p)))
  {
    var i := FindIndex(s, id).value;
    UpdateKeepsLookups(s, i, p, id);
  }
}
