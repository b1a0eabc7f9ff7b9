/**
 * The zod schema `movieSchema` of src/schema/movies.js and its two entry
 * points: `validateMovie` (every field but `rate` required, `rate`
 * defaulting to 0) and `validatePartialMovie` (`movieSchema.partial()`:
 * every field optional, nothing defaulted). Parsing yields either the
 * normalised data or the list of issues zod collects, in field order.
 */
module MovieSchema {
  import opened Wrappers
  import opened JsValues

  /** `GENDER_VALUES`. It is passed to `.array(...)`, which ignores its argument, so it constrains nothing. */
  const GenreValues: seq<string> :=
    ["Drama", "Action", "Crime", "Adventure", "Sci-Fi", "Romance", "Animation", "Biography", "Fantasy"]

  /** The keys of `movieSchema`, in declaration order. */
  datatype Field = Title | Year | Director | Duration | Poster | Genre | Rate

  function KeyOf(f: Field): string
  {
    match f
    case Title => "title"
    case Year => "year"
    case Director => "director"
    case Duration => "duration"
    case Poster => "poster"
    case Genre => "genre"
    case Rate => "rate"
  }

  const SchemaKeys: set<string> := {"title", "year", "director", "duration", "poster", "genre", "rate"}

  /** Where an issue was found: the body itself, a field, or an element of the `genre` array. */
  datatype Path = AtRoot | AtField(field: Field) | AtElement(field: Field, index: nat)
  {
    predicate Mentions(f: Field)
    {
      !AtRoot? && field == f
    }
  }

  /**
   * What went wrong. `Required` is zod's `invalid_type` with nothing
   * received, `NotInteger` its `invalid_type` with an integer expected.
   */
  datatype IssueKind = Required | InvalidType | NotInteger | TooSmall | TooBig | InvalidUrl

  datatype Issue = Issue(path: Path, kind: IssueKind)

  type Issues = seq<Issue>

  /** The number checks of zod, in the order a schema lists them. */
  datatype NumberCheck = IsInt | Positive | Min(low: real) | Max(high: real)

  /** `z.number({}).int().positive().min(1900).max(2025)` */
  const YearChecks: seq<NumberCheck> := [IsInt, Positive, Min(1900.0), Max(2025.0)]
  /** `z.number().int().positive()` */
  const DurationChecks: seq<NumberCheck> := [IsInt, Positive]
  /** `z.number().min(0).max(10)` */
  const RateChecks: seq<NumberCheck> := [Min(0.0), Max(10.0)]
  /** `.default(0)` on `rate` */
  const RateDefault: real := 0.0

  predicate IsInteger(x: real)
  {
    x.Floor as real == x
  }

  predicate Passes(c: NumberCheck, x: real)
  {
    match c
    case IsInt => IsInteger(x)
    case Positive => x > 0.0
    case Min(low) => x >= low
    case Max(high) => x <= high
  }

  function KindOf(c: NumberCheck): IssueKind
  {
    match c
    case IsInt => NotInteger
    case Positive | Min(_) => TooSmall
    case Max(_) => TooBig
  }

  /** zod runs every check of a number and reports each one that fails, in order. */
  function NumberIssues(f: Field, x: real, checks: seq<NumberCheck>): (r: Issues)
    ensures r == [] <==> forall k :: 0 <= k < |checks| ==> Passes(checks[k], x)
    ensures forall k :: 0 <= k < |checks| && !Passes(checks[k], x) ==> Issue(AtField(f), KindOf(checks[k])) in r
    ensures forall i :: i in r ==> i.path == AtField(f)
  {
    if checks == [] then []
    else
      var rest := NumberIssues(f, x, checks[1..]);
      assert forall k :: 1 <= k < |checks| ==> checks[k] == checks[1..][k - 1];
      (if Passes(checks[0], x) then [] else [Issue(AtField(f), KindOf(checks[0]))]) + rest
  }

  /** The number checks the schema lists for each numeric field. */
  function ChecksOf(f: Field): seq<NumberCheck>
  {
    match f
    case Year => YearChecks
    case Duration => DurationChecks
    case Rate => RateChecks
    case _ => []
  }

  /**
   * The listed checks of a numeric field accept exactly the values its rule
   * describes; in particular `positive()` adds nothing to `min(1900)` on `year`.
   */
  lemma NumberChecksAgree(f: Field, x: real, isUrl: string -> bool)
    requires f == Year || f == Duration || f == Rate
    ensures (forall k :: 0 <= k < |ChecksOf(f)| ==> Passes(ChecksOf(f)[k], x)) <==> MeetsRules(f, JNum(x), isUrl)
  {
    var cs := ChecksOf(f);
    if MeetsRules(f, JNum(x), isUrl) {
      forall k | 0 <= k < |cs| ensures Passes(cs[k], x) {
        assert k == 0 || k == 1 || k == 2 || k == 3;
      }
    } else {
      match f
      case Year => assert !Passes(cs[0], x) || !Passes(cs[2], x) || !Passes(cs[3], x);
      case Duration => assert !Passes(cs[0], x) || !Passes(cs[1], x);
      case Rate => assert !Passes(cs[0], x) || !Passes(cs[1], x);
    }
  }

  /** One element of `genre` that is not a string is reported at its index. */
  function ElementIssues(f: Field, items: seq<Json>, from: nat): (r: Issues)
    ensures r == [] <==> forall k :: 0 <= k < |items| ==> items[k].JStr?
    ensures forall k :: 0 <= k < |items| && !items[k].JStr? ==> Issue(AtElement(f, from + k), InvalidType) in r
    ensures forall i :: i in r ==> i.path.AtElement? && i.path.field == f
    decreases |items|
  {
    if items == [] then []
    else
      var rest := ElementIssues(f, items[1..], from + 1);
      assert forall k :: 1 <= k < |items| ==> items[k] == items[1..][k - 1];
      (if items[0].JStr? then [] else [Issue(AtElement(f, from), InvalidType)]) + rest
  }

  /** A parsed field: a string, a number or a list of strings. */
  datatype FieldValue = Text(s: string) | Number(n: real) | Texts(ss: seq<string>)

  /** The type each field must have: `z.string()`, `z.number()`, or an array of strings for `genre`. */
  predicate HasType(f: Field, v: Json)
  {
    match f
    case Title | Director | Poster => v.JStr?
    case Year | Duration | Rate => v.JNum?
    case Genre => v.JArr? && forall k :: 0 <= k < |v.items| ==> v.items[k].JStr?
  }

  /** The value rules beyond the type, stated directly. */
  predicate MeetsRules(f: Field, v: Json, isUrl: string -> bool)
    requires HasType(f, v)
  {
    match f
    case Poster => isUrl(v.s)
    case Year => IsInteger(v.n) && 1900.0 <= v.n <= 2025.0
    case Duration => IsInteger(v.n) && v.n > 0.0
    case Rate => 0.0 <= v.n <= 10.0
    case Title | Director | Genre => true
  }

  /** A present value the schema accepts for field `f`. */
  predicate FieldOk(f: Field, v: Json, isUrl: string -> bool)
  {
    HasType(f, v) && MeetsRules(f, v, isUrl)
  }

  /** What an accepted value turns into: `title` is trimmed, everything else passes unchanged. */
  predicate Yields(f: Field, v: Json, x: FieldValue)
  {
    match f
    case Title => v.JStr? && x == Text(Trim(v.s))
    case Director | Poster => v.JStr? && x == Text(v.s)
    case Year | Duration | Rate => v.JNum? && x == Number(v.n)
    case Genre =>
      && v.JArr? && x.Texts? && |x.ss| == |v.items|
      && forall k :: 0 <= k < |v.items| ==> v.items[k] == JStr(x.ss[k])
  }

  function ParseString(f: Field, v: Json, isUrl: string -> bool): Result<FieldValue, Issues>
  {
    if !v.JStr? then Failure([Issue(AtField(f), InvalidType)])
    else
      var s := if f == Title then Trim(v.s) else v.s;
      if f == Poster && !isUrl(s) then Failure([Issue(AtField(f), InvalidUrl)])
      else Success(Text(s))
  }

  function ParseNumber(f: Field, v: Json, checks: seq<NumberCheck>): Result<FieldValue, Issues>
  {
    if !v.JNum? then Failure([Issue(AtField(f), InvalidType)])
    else
      var issues := NumberIssues(f, v.n, checks);
      if issues == [] then Success(Number(v.n)) else Failure(issues)
  }

  function ParseStrings(f: Field, v: Json): Result<FieldValue, Issues>
  {
    if !v.JArr? then Failure([Issue(AtField(f), InvalidType)])
    else
      var issues := ElementIssues(f, v.items, 0);
      if issues == [] then Success(Texts(seq(|v.items|, k requires 0 <= k < |v.items| => v.items[k].s)))
      else Failure(issues)
  }

  /**
   * Parses the value present under field `f`. It succeeds exactly when the
   * value meets the field's rules, yields the normalised value, and
   * otherwise reports at least one issue, every one of them about `f`.
   */
  function ParseField(f: Field, v: Json, isUrl: string -> bool): (r: Result<FieldValue, Issues>)
    ensures r.Success? <==> FieldOk(f, v, isUrl)
    ensures r.Success? ==> Yields(f, v, r.value)
    ensures r.Failure? ==> r.error != [] && forall i :: i in r.error ==> i.path.Mentions(f)
  {
    match f
    case Title | Director | Poster => ParseString(f, v, isUrl)
    case Year | Duration | Rate =>
      if v.JNum? then NumberChecksAgree(f, v.n, isUrl); ParseNumber(f, v, ChecksOf(f))
      else ParseNumber(f, v, ChecksOf(f))
    case Genre => ParseStrings(f, v)
  }

  /** The record `validateMovie` returns on success: every schema key, `rate` defaulted. */
  datatype MovieData = MovieData(
    title: string, year: int, director: string, duration: int,
    poster: string, genre: seq<string>, rate: real)

  /** The record `validatePartialMovie` returns on success: only the keys that were sent. */
  datatype PartialMovie = PartialMovie(
    title: Option<string>, year: Option<int>, director: Option<string>, duration: Option<int>,
    poster: Option<string>, genre: Option<seq<string>>, rate: Option<real>)

  function ErrorsOf<T>(r: Result<T, Issues>): Issues
  {
    if r.Failure? then r.error else []
  }

  /** Full validation rejects field `f` of `m`: present and bad, or absent and required. */
  predicate Rejects(m: map<string, Json>, f: Field, isUrl: string -> bool)
  {
    if KeyOf(f) in m then !FieldOk(f, m[KeyOf(f)], isUrl) else f != Rate
  }

  /** Partial validation rejects field `f` of `m`: present and bad. */
  predicate PartialRejects(m: map<string, Json>, f: Field, isUrl: string -> bool)
  {
    KeyOf(f) in m && !FieldOk(f, m[KeyOf(f)], isUrl)
  }

  /** Full validation of one key: an absent key is `Required`, except `rate`, which defaults to 0. */
  function FullField(m: map<string, Json>, f: Field, isUrl: string -> bool): (r: Result<FieldValue, Issues>)
    ensures r.Success? <==> !Rejects(m, f, isUrl)
    ensures r.Success? ==> if KeyOf(f) in m then Yields(f, m[KeyOf(f)], r.value) else r.value == Number(RateDefault)
    ensures r.Failure? ==> r.error != [] && forall i :: i in r.error ==> i.path.Mentions(f)
  {
    if KeyOf(f) in m then ParseField(f, m[KeyOf(f)], isUrl)
    else if f == Rate then Success(Number(RateDefault))
    else Failure([Issue(AtField(f), Required)])
  }

  /**
   * Partial validation of one key: an absent key stays absent, because
   * `.partial()` wraps every field, `rate`'s default included, in `optional`.
   */
  function PartialField(m: map<string, Json>, f: Field, isUrl: string -> bool): (r: Result<Option<FieldValue>, Issues>)
    ensures r.Success? <==> !PartialRejects(m, f, isUrl)
    ensures r.Success? ==> (r.value.Some? <==> KeyOf(f) in m)
    ensures r.Success? && r.value.Some? ==> Yields(f, m[KeyOf(f)], r.value.value)
    ensures r.Failure? ==> r.error != [] && forall i :: i in r.error ==> i.path.Mentions(f)
  {
    if KeyOf(f) in m then
      var r := ParseField(f, m[KeyOf(f)], isUrl);
      if r.Success? then Success(Some(r.value)) else Failure(r.error)
    else Success(None)
  }

  /** The issues one field contributes: none exactly when the field is not rejected, and all about it. */
  function FieldIssues(m: map<string, Json>, f: Field, isUrl: string -> bool, partial: bool): (r: Issues)
    ensures r != [] <==> if partial then PartialRejects(m, f, isUrl) else Rejects(m, f, isUrl)
    ensures forall i :: i in r ==> i.path.Mentions(f)
  {
    if partial then ErrorsOf(PartialField(m, f, isUrl)) else ErrorsOf(FullField(m, f, isUrl))
  }

  /** The shape keys, in the order zod walks them. */
  const Fields: seq<Field> := [Title, Year, Director, Duration, Poster, Genre, Rate]

  /** zod walks the shape keys in order and collects the issues of each. */
  function CollectIssues(m: map<string, Json>, fs: seq<Field>, isUrl: string -> bool, partial: bool): (r: Issues)
    ensures r == [] <==> forall k :: 0 <= k < |fs| ==> FieldIssues(m, fs[k], isUrl, partial) == []
  {
    if fs == [] then []
    else
      var rest := CollectIssues(m, fs[1..], isUrl, partial);
      assert forall k :: 1 <= k < |fs| ==> fs[k] == fs[1..][k - 1];
      FieldIssues(m, fs[0], isUrl, partial) + rest
  }

  /** Where each field stands in `Fields`. */
  function IndexOf(f: Field): (k: nat)
    ensures k < |Fields| && Fields[k] == f
  {
    match f
    case Title => 0
    case Year => 1
    case Director => 2
    case Duration => 3
    case Poster => 4
    case Genre => 5
    case Rate => 6
  }

  lemma NoIssuesAt(m: map<string, Json>, isUrl: string -> bool, partial: bool, f: Field)
    requires CollectIssues(m, Fields, isUrl, partial) == []
    ensures FieldIssues(m, f, isUrl, partial) == []
  {
    var k := IndexOf(f);
    assert FieldIssues(m, Fields[k], isUrl, partial) == [];
  }

  /** The invariant of a validated record: the bounds the schema puts on `year`, `duration` and `rate`, a URL poster, a trimmed title. */
  predicate ValidData(d: MovieData, isUrl: string -> bool)
  {
    && Trim(d.title) == d.title
    && 1900 <= d.year <= 2025
    && d.duration > 0
    && isUrl(d.poster)
    && 0.0 <= d.rate <= 10.0
  }

  /** The record of a body in which no field has an issue: the parsed values of the seven keys. */
  function BuildMovie(m: map<string, Json>, isUrl: string -> bool): (d: MovieData)
    requires CollectIssues(m, Fields, isUrl, false) == []
    ensures Describes(m, d)
    ensures ValidData(d, isUrl)
  {
    NoIssuesAt(m, isUrl, false, Title); NoIssuesAt(m, isUrl, false, Year);
    NoIssuesAt(m, isUrl, false, Director); NoIssuesAt(m, isUrl, false, Duration);
    NoIssuesAt(m, isUrl, false, Poster); NoIssuesAt(m, isUrl, false, Genre);
    NoIssuesAt(m, isUrl, false, Rate);
    var year := FullField(m, Year, isUrl).value.n;
    var duration := FullField(m, Duration, isUrl).value.n;
    assert year.Floor as real == year && duration.Floor as real == duration;
    TrimIdempotent(m["title"].s);
    MovieData(
      FullField(m, Title, isUrl).value.s,
      year.Floor,
      FullField(m, Director, isUrl).value.s,
      duration.Floor,
      FullField(m, Poster, isUrl).value.s,
      FullField(m, Genre, isUrl).value.ss,
      FullField(m, Rate, isUrl).value.n)
  }

  /** `validateMovie(object)`: `movieSchema.safeParse(object)`. Keys outside the schema are dropped. */
  function ValidateMovie(body: Json, isUrl: string -> bool): (r: Result<MovieData, Issues>)
    ensures r.Failure? ==> r.error != []
    ensures r.Success? ==> body.JObj? && Describes(body.fields, r.value) && ValidData(r.value, isUrl)
  {
    if !body.JObj? then Failure([Issue(AtRoot, InvalidType)])
    else
      var issues := CollectIssues(body.fields, Fields, isUrl, false);
      if issues != [] then Failure(issues) else Success(BuildMovie(body.fields, isUrl))
  }

  function TextOf(o: Option<FieldValue>): Option<string>
  {
    if o.Some? && o.value.Text? then Some(o.value.s) else None
  }

  function IntOf(o: Option<FieldValue>): Option<int>
  {
    if o.Some? && o.value.Number? then Some(o.value.n.Floor) else None
  }

  function RealOf(o: Option<FieldValue>): Option<real>
  {
    if o.Some? && o.value.Number? then Some(o.value.n) else None
  }

  function TextsOf(o: Option<FieldValue>): Option<seq<string>>
  {
    if o.Some? && o.value.Texts? then Some(o.value.ss) else None
  }

  /** The partial record of a body in which no present field has an issue. */
  function BuildPartial(m: map<string, Json>, isUrl: string -> bool): (p: PartialMovie)
    requires CollectIssues(m, Fields, isUrl, true) == []
    ensures DescribesPartial(m, p)
  {
    NoIssuesAt(m, isUrl, true, Title); NoIssuesAt(m, isUrl, true, Year);
    NoIssuesAt(m, isUrl, true, Director); NoIssuesAt(m, isUrl, true, Duration);
    NoIssuesAt(m, isUrl, true, Poster); NoIssuesAt(m, isUrl, true, Genre);
    NoIssuesAt(m, isUrl, true, Rate);
    var year := PartialField(m, Year, isUrl).value;
    var duration := PartialField(m, Duration, isUrl).value;
    assert year.Some? ==> year.value.n.Floor as real == year.value.n;
    assert duration.Some? ==> duration.value.n.Floor as real == duration.value.n;
    PartialMovie(
      TextOf(PartialField(m, Title, isUrl).value),
      IntOf(year),
      TextOf(PartialField(m, Director, isUrl).value),
      IntOf(duration),
      TextOf(PartialField(m, Poster, isUrl).value),
      TextsOf(PartialField(m, Genre, isUrl).value),
      RealOf(PartialField(m, Rate, isUrl).value))
  }

  /** `validatePartialMovie(input)`: `movieSchema.partial().safeParse(input)`. */
  function ValidatePartialMovie(body: Json, isUrl: string -> bool): (r: Result<PartialMovie, Issues>)
    ensures r.Failure? ==> r.error != []
    ensures r.Success? ==> body.JObj? && DescribesPartial(body.fields, r.value)
  {
    if !body.JObj? then Failure([Issue(AtRoot, InvalidType)])
    else
      var issues := CollectIssues(body.fields, Fields, isUrl, true);
      if issues != [] then Failure(issues) else Success(BuildPartial(body.fields, isUrl))
  }

  // ---------------------------------------------------------------------
  // The acceptance rules stated on whole bodies, and what validation does.

  ghost predicate AcceptsMovie(body: Json, isUrl: string -> bool)
  {
    body.JObj? && forall f :: !Rejects(body.fields, f, isUrl)
  }

  ghost predicate AcceptsPartial(body: Json, isUrl: string -> bool)
  {
    body.JObj? && forall f :: !PartialRejects(body.fields, f, isUrl)
  }

  /** Some issue in `issues` is about field `f`. */
  ghost predicate Reports(issues: Issues, f: Field)
  {
    exists i :: i in issues && i.path.Mentions(f)
  }

  /** `d` is what the body `m` normalises to under full validation. */
  ghost predicate Describes(m: map<string, Json>, d: MovieData)
  {
    && "title" in m && Yields(Title, m["title"], Text(d.title))
    && "year" in m && Yields(Year, m["year"], Number(d.year as real))
    && "director" in m && Yields(Director, m["director"], Text(d.director))
    && "duration" in m && Yields(Duration, m["duration"], Number(d.duration as real))
    && "poster" in m && Yields(Poster, m["poster"], Text(d.poster))
    && "genre" in m && Yields(Genre, m["genre"], Texts(d.genre))
    && if "rate" in m then Yields(Rate, m["rate"], Number(d.rate)) else d.rate == RateDefault
  }

  /** `p` holds exactly the schema keys present in `m`, each normalised; nothing is defaulted. */
  ghost predicate DescribesPartial(m: map<string, Json>, p: PartialMovie)
  {
    && (p.title.Some? <==> "title" in m) && (p.title.Some? ==> Yields(Title, m["title"], Text(p.title.value)))
    && (p.year.Some? <==> "year" in m) && (p.year.Some? ==> Yields(Year, m["year"], Number(p.year.value as real)))
    && (p.director.Some? <==> "director" in m)
    && (p.director.Some? ==> Yields(Director, m["director"], Text(p.director.value)))
    && (p.duration.Some? <==> "duration" in m)
    && (p.duration.Some? ==> Yields(Duration, m["duration"], Number(p.duration.value as real)))
    && (p.poster.Some? <==> "poster" in m) && (p.poster.Some? ==> Yields(Poster, m["poster"], Text(p.poster.value)))
    && (p.genre.Some? <==> "genre" in m) && (p.genre.Some? ==> Yields(Genre, m["genre"], Texts(p.genre.value)))
    && (p.rate.Some? <==> "rate" in m) && (p.rate.Some? ==> Yields(Rate, m["rate"], Number(p.rate.value)))
  }

  /** The collected issues mention `f` exactly when `f` is one of the walked keys and its own check failed. */
  lemma {:induction false} CollectReports(m: map<string, Json>, fs: seq<Field>, isUrl: string -> bool, partial: bool, f: Field)
    ensures Reports(CollectIssues(m, fs, isUrl, partial), f) <==> f in fs && FieldIssues(m, f, isUrl, partial) != []
  {
    if fs != [] {
      CollectReports(m, fs[1..], isUrl, partial, f);
      var here := FieldIssues(m, fs[0], isUrl, partial);
      var rest := CollectIssues(m, fs[1..], isUrl, partial);
      assert CollectIssues(m, fs, isUrl, partial) == here + rest;
      assert forall i :: i in here ==> i.path.Mentions(fs[0]);
      if fs[0] == f && here != [] {
        assert here[0] in here + rest;
      }
      assert f in fs <==> fs[0] == f || f in fs[1..];
    }
  }

  /**
   * Full validation succeeds exactly when the body is an object in which
   * `title`, `year`, `director`, `duration`, `poster` and `genre` are present
   * and valid, and `rate` is absent or valid.
   */
  lemma ValidateMovieAccepts(body: Json, isUrl: string -> bool)
    ensures ValidateMovie(body, isUrl).Success? <==> AcceptsMovie(body, isUrl)
  {
    if body.JObj? {
      var m := body.fields;
      if CollectIssues(m, Fields, isUrl, false) == [] {
        forall f ensures !Rejects(m, f, isUrl) {
          NoIssuesAt(m, isUrl, false, f);
        }
      }
    }
  }

  /**
   * A failed validation of an object names every field it rejects and no
   * other: the issue list is the field-indexed error the handlers send back.
   */
  lemma ValidateMovieReports(body: Json, isUrl: string -> bool)
    requires body.JObj? && ValidateMovie(body, isUrl).Failure?
    ensures forall f :: Reports(ValidateMovie(body, isUrl).error, f) <==> Rejects(body.fields, f, isUrl)
  {
    forall f ensures Reports(ValidateMovie(body, isUrl).error, f) <==> Rejects(body.fields, f, isUrl) {
      CollectReports(body.fields, Fields, isUrl, false, f);
      assert Fields[IndexOf(f)] == f;
    }
  }

  /** Every issue of a walked field is among the collected issues. */
  lemma {:induction false} CollectContains(m: map<string, Json>, fs: seq<Field>, isUrl: string -> bool, partial: bool, f: Field)
    requires f in fs
    ensures forall i :: i in FieldIssues(m, f, isUrl, partial) ==> i in CollectIssues(m, fs, isUrl, partial)
  {
    assert CollectIssues(m, fs, isUrl, partial) == FieldIssues(m, fs[0], isUrl, partial) + CollectIssues(m, fs[1..], isUrl, partial);
    if fs[0] != f {
      assert f in fs[1..];
      CollectContains(m, fs[1..], isUrl, partial, f);
    }
  }

  /** A body that is not an object is rejected as a whole, with one issue at the root. */
  lemma NonObjectRejected(body: Json, isUrl: string -> bool)
    requires !body.JObj?
    ensures ValidateMovie(body, isUrl) == Failure([Issue(AtRoot, InvalidType)])
    ensures ValidatePartialMovie(body, isUrl) == Failure([Issue(AtRoot, InvalidType)])
  {
  }

  /** An issue of one field is among the issues of the whole walk. */
  lemma CollectedAt(m: map<string, Json>, isUrl: string -> bool, partial: bool, f: Field, i: Issue)
    requires i in FieldIssues(m, f, isUrl, partial)
    ensures i in CollectIssues(m, Fields, isUrl, partial)
  {
    assert Fields[IndexOf(f)] == f;
    CollectContains(m, Fields, isUrl, partial, f);
  }

  /** The bound issue an integer `year` outside 1900..2025 raises on its own field. */
  lemma YearIssue(m: map<string, Json>, isUrl: string -> bool, partial: bool, year: real)
    requires "year" in m && m["year"] == JNum(year)
    requires IsInteger(year) && (year < 1900.0 || year > 2025.0)
    ensures Issue(AtField(Year), if year < 1900.0 then TooSmall else TooBig) in FieldIssues(m, Year, isUrl, partial)
  {
    var checks := ChecksOf(Year);
    assert !Passes(checks[if year < 1900.0 then 2 else 3], year);
    assert KindOf(checks[if year < 1900.0 then 2 else 3]) == if year < 1900.0 then TooSmall else TooBig;
  }

  /**
   * An integer `year` outside 1900..2025 (1899, 2026) is rejected by both
   * validations, with a bound issue on `year`.
   */
  lemma YearOutOfRangeRejected(body: Json, isUrl: string -> bool, year: real)
    requires body.JObj? && "year" in body.fields && body.fields["year"] == JNum(year)
    requires IsInteger(year) && (year < 1900.0 || year > 2025.0)
    ensures ValidateMovie(body, isUrl).Failure?
    ensures Issue(AtField(Year), if year < 1900.0 then TooSmall else TooBig) in ValidateMovie(body, isUrl).error
    ensures ValidatePartialMovie(body, isUrl).Failure?
    ensures Issue(AtField(Year), if year < 1900.0 then TooSmall else TooBig) in ValidatePartialMovie(body, isUrl).error
  {
    var m := body.fields;
    var issue := Issue(AtField(Year), if year < 1900.0 then TooSmall else TooBig);
    YearIssue(m, isUrl, false, year);
    YearIssue(m, isUrl, true, year);
    CollectedAt(m, isUrl, false, Year, issue);
    CollectedAt(m, isUrl, true, Year, issue);
  }

  /** A poster that is not a URL gives `InvalidUrl` on its own field. */
  lemma PosterIssue(m: map<string, Json>, isUrl: string -> bool, partial: bool, poster: string)
    requires "poster" in m && m["poster"] == JStr(poster) && !isUrl(poster)
    ensures Issue(AtField(Poster), InvalidUrl) in FieldIssues(m, Poster, isUrl, partial)
  {
  }

  /** A `poster` string that is not a URL is rejected by both validations, with an `InvalidUrl` issue on `poster`. */
  lemma PosterNotUrlRejected(body: Json, isUrl: string -> bool, poster: string)
    requires body.JObj? && "poster" in body.fields && body.fields["poster"] == JStr(poster)
    requires !isUrl(poster)
    ensures ValidateMovie(body, isUrl).Failure?
    ensures Issue(AtField(Poster), InvalidUrl) in ValidateMovie(body, isUrl).error
    ensures ValidatePartialMovie(body, isUrl).Failure?
    ensures Issue(AtField(Poster), InvalidUrl) in ValidatePartialMovie(body, isUrl).error
  {
    var m := body.fields;
    PosterIssue(m, isUrl, false, poster);
    PosterIssue(m, isUrl, true, poster);
    CollectedAt(m, isUrl, false, Poster, Issue(AtField(Poster), InvalidUrl));
    CollectedAt(m, isUrl, true, Poster, Issue(AtField(Poster), InvalidUrl));
  }

  /** Partial validation succeeds exactly when the body is an object whose present schema keys are all valid. */
  lemma ValidatePartialAccepts(body: Json, isUrl: string -> bool)
    ensures ValidatePartialMovie(body, isUrl).Success? <==> AcceptsPartial(body, isUrl)
  {
    if body.JObj? {
      var m := body.fields;
      if CollectIssues(m, Fields, isUrl, true) == [] {
        forall f ensures !PartialRejects(m, f, isUrl) {
          NoIssuesAt(m, isUrl, true, f);
        }
      }
    }
  }

  /** A failed partial validation of an object names exactly the present fields that are invalid. */
  lemma ValidatePartialReports(body: Json, isUrl: string -> bool)
    requires body.JObj? && ValidatePartialMovie(body, isUrl).Failure?
    ensures forall f :: Reports(ValidatePartialMovie(body, isUrl).error, f) <==> PartialRejects(body.fields, f, isUrl)
  {
    forall f ensures Reports(ValidatePartialMovie(body, isUrl).error, f) <==> PartialRejects(body.fields, f, isUrl) {
      CollectReports(body.fields, Fields, isUrl, true, f);
      assert Fields[IndexOf(f)] == f;
    }
  }

  /** The empty object is a valid partial update that supplies nothing. */
  lemma EmptyPartialAccepted(isUrl: string -> bool)
    ensures ValidatePartialMovie(JObj(map[]), isUrl) == Success(PartialMovie(None, None, None, None, None, None, None))
  {
    ValidatePartialAccepts(JObj(map[]), isUrl);
  }

  /** The fields a valid full body supplies, as a partial record. */
  function AsPartial(d: MovieData, withRate: bool): PartialMovie
  {
    PartialMovie(Some(d.title), Some(d.year), Some(d.director), Some(d.duration),
                 Some(d.poster), Some(d.genre), if withRate then Some(d.rate) else None)
  }

  /** What a field value yields is determined by the value. */
  lemma YieldsUnique(f: Field, v: Json, x: FieldValue, y: FieldValue)
    requires Yields(f, v, x) && Yields(f, v, y)
    ensures x == y
  {
    if f == Genre {
      assert x.ss == y.ss;
    }
  }

  /**
   * A body that passes full validation passes partial validation too, with
   * the same values; only the defaulted `rate` is missing when it was not sent.
   */
  lemma FullImpliesPartial(body: Json, isUrl: string -> bool)
    requires ValidateMovie(body, isUrl).Success?
    ensures ValidatePartialMovie(body, isUrl)
         == Success(AsPartial(ValidateMovie(body, isUrl).value, "rate" in body.fields))
  {
    var m := body.fields;
    var d := ValidateMovie(body, isUrl).value;
    ValidateMovieAccepts(body, isUrl);
    ValidatePartialAccepts(body, isUrl);
    assert forall f :: PartialRejects(m, f, isUrl) ==> Rejects(m, f, isUrl);
    var p := ValidatePartialMovie(body, isUrl).value;
    YieldsUnique(Title, m["title"], Text(p.title.value), Text(d.title));
    YieldsUnique(Year, m["year"], Number(p.year.value as real), Number(d.year as real));
    YieldsUnique(Director, m["director"], Text(p.director.value), Text(d.director));
    YieldsUnique(Duration, m["duration"], Number(p.duration.value as real), Number(d.duration as real));
    YieldsUnique(Poster, m["poster"], Text(p.poster.value), Text(d.poster));
    YieldsUnique(Genre, m["genre"], Texts(p.genre.value), Texts(d.genre));
    if "rate" in m {
      YieldsUnique(Rate, m["rate"], Number(p.rate.value), Number(d.rate));
    }
  }

  /** A body that passes partial validation and supplies the six required keys passes full validation. */
  lemma PartialWithRequiredIsFull(body: Json, isUrl: string -> bool)
    requires ValidatePartialMovie(body, isUrl).Success?
    requires forall f :: f != Rate ==> KeyOf(f) in body.fields
    ensures ValidateMovie(body, isUrl).Success?
  {
    ValidateMovieAccepts(body, isUrl);
    ValidatePartialAccepts(body, isUrl);
  }

  /** Two bodies that agree on every schema key. */
  ghost predicate AgreeOnSchema(m1: map<string, Json>, m2: map<string, Json>)
  {
    forall f :: (KeyOf(f) in m1 <==> KeyOf(f) in m2) && (KeyOf(f) in m1 ==> m1[KeyOf(f)] == m2[KeyOf(f)])
  }

  lemma {:induction false} CollectAgrees(m1: map<string, Json>, m2: map<string, Json>, fs: seq<Field>, isUrl: string -> bool, partial: bool)
    requires AgreeOnSchema(m1, m2)
    ensures CollectIssues(m1, fs, isUrl, partial) == CollectIssues(m2, fs, isUrl, partial)
  {
    if fs != [] {
      CollectAgrees(m1, m2, fs[1..], isUrl, partial);
      assert FieldIssues(m1, fs[0], isUrl, partial) == FieldIssues(m2, fs[0], isUrl, partial);
    }
  }

  /**
   * Validation looks at the schema keys only: keys such as `id` are neither
   * checked nor copied into the result (zod's default `strip`).
   */
  lemma ValidationSeesOnlySchemaKeys(m1: map<string, Json>, m2: map<string, Json>, isUrl: string -> bool)
    requires AgreeOnSchema(m1, m2)
    ensures ValidateMovie(JObj(m1), isUrl) == ValidateMovie(JObj(m2), isUrl)
    ensures ValidatePartialMovie(JObj(m1), isUrl) == ValidatePartialMovie(JObj(m2), isUrl)
  {
    CollectAgrees(m1, m2, Fields, isUrl, false);
    CollectAgrees(m1, m2, Fields, isUrl, true);
    forall f ensures FullField(m1, f, isUrl) == FullField(m2, f, isUrl) && PartialField(m1, f, isUrl) == PartialField(m2, f, isUrl) {
    }
  }

  /** Adding a key outside the schema, `id` for one, changes neither validation. */
  lemma UnknownKeyIgnored(m: map<string, Json>, k: string, v: Json, isUrl: string -> bool)
    requires k !in SchemaKeys
    ensures ValidateMovie(JObj(m[k := v]), isUrl) == ValidateMovie(JObj(m), isUrl)
    ensures ValidatePartialMovie(JObj(m[k := v]), isUrl) == ValidatePartialMovie(JObj(m), isUrl)
  {
    forall f ensures KeyOf(f) in SchemaKeys {
    }
    ValidationSeesOnlySchemaKeys(m[k := v], m, isUrl);
  }

  /** A validated record written back as a JSON object, as the handlers send it. */
  function StringsJson(ss: seq<string>): (r: seq<Json>)
    ensures |r| == |ss| && forall k :: 0 <= k < |ss| ==> r[k] == JStr(ss[k])
  {
    if ss == [] then [] else [JStr(ss[0])] + StringsJson(ss[1..])
  }

  function MovieJson(d: MovieData): Json
  {
    JObj(map[
      "title" := JStr(d.title), "year" := JNum(d.year as real), "director" := JStr(d.director),
      "duration" := JNum(d.duration as real), "poster" := JStr(d.poster),
      "genre" := JArr(StringsJson(d.genre)),
      "rate" := JNum(d.rate)])
  }

  /** An object holding a valid record's values under every key is accepted key by key. */
  lemma HoldsAccepted(m: map<string, Json>, d: MovieData, isUrl: string -> bool)
    requires ValidData(d, isUrl)
    requires SchemaKeys <= m.Keys
    requires m["title"] == JStr(d.title) && m["year"] == JNum(d.year as real)
    requires m["director"] == JStr(d.director) && m["duration"] == JNum(d.duration as real)
    requires m["poster"] == JStr(d.poster) && m["genre"] == JArr(StringsJson(d.genre))
    requires m["rate"] == JNum(d.rate)
    ensures forall f :: !Rejects(m, f, isUrl)
  {
    forall f ensures !Rejects(m, f, isUrl) {
      assert KeyOf(f) in SchemaKeys;
      if f == Year || f == Duration {
        assert ((if f == Year then d.year else d.duration) as real).Floor == (if f == Year then d.year else d.duration);
      }
    }
  }

  lemma MovieJsonAccepted(d: MovieData, isUrl: string -> bool)
    requires ValidData(d, isUrl)
    ensures AcceptsMovie(MovieJson(d), isUrl)
  {
    MovieJsonValues(d);
    HoldsAccepted(MovieJson(d).fields, d, isUrl);
  }

  /** A body describes at most one record. */
  lemma DescribesUnique(m: map<string, Json>, d: MovieData, e: MovieData)
    requires Describes(m, d) && Describes(m, e)
    ensures d == e
  {
    assert d.title == e.title by {
      YieldsUnique(Title, m["title"], Text(e.title), Text(d.title));
    }
    assert d.year == e.year by {
      YieldsUnique(Year, m["year"], Number(e.year as real), Number(d.year as real));
    }
    assert d.director == e.director by {
      YieldsUnique(Director, m["director"], Text(e.director), Text(d.director));
    }
    assert d.duration == e.duration by {
      YieldsUnique(Duration, m["duration"], Number(e.duration as real), Number(d.duration as real));
    }
    assert d.poster == e.poster by {
      YieldsUnique(Poster, m["poster"], Text(e.poster), Text(d.poster));
    }
    assert d.genre == e.genre by {
      YieldsUnique(Genre, m["genre"], Texts(e.genre), Texts(d.genre));
    }
  }

  /** The value `MovieJson` stores under each schema key. */
  lemma MovieJsonValues(d: MovieData)
    ensures MovieJson(d).fields.Keys == SchemaKeys
    ensures MovieJson(d).fields["title"] == JStr(d.title)
    ensures MovieJson(d).fields["year"] == JNum(d.year as real)
    ensures MovieJson(d).fields["director"] == JStr(d.director)
    ensures MovieJson(d).fields["duration"] == JNum(d.duration as real)
    ensures MovieJson(d).fields["poster"] == JStr(d.poster)
    ensures MovieJson(d).fields["genre"] == JArr(StringsJson(d.genre))
    ensures MovieJson(d).fields["rate"] == JNum(d.rate)
  {
  }

  /** An object holding the record's own values under every key describes it. */
  lemma HoldsDescribes(m: map<string, Json>, d: MovieData)
    requires Trim(d.title) == d.title
    requires SchemaKeys <= m.Keys
    requires m["title"] == JStr(d.title) && m["year"] == JNum(d.year as real)
    requires m["director"] == JStr(d.director) && m["duration"] == JNum(d.duration as real)
    requires m["poster"] == JStr(d.poster) && m["genre"] == JArr(StringsJson(d.genre))
    requires m["rate"] == JNum(d.rate)
    ensures Describes(m, d)
  {
    assert Yields(Genre, m["genre"], Texts(d.genre));
  }

  lemma MovieJsonDescribes(d: MovieData)
    requires Trim(d.title) == d.title
    ensures Describes(MovieJson(d).fields, d)
  {
    MovieJsonValues(d);
    HoldsDescribes(MovieJson(d).fields, d);
  }

  /** A record that meets the invariant, written as JSON, validates to itself. */
  lemma MovieJsonValidates(d: MovieData, isUrl: string -> bool)
    requires ValidData(d, isUrl)
    ensures ValidateMovie(MovieJson(d), isUrl) == Success(d)
  {
    var j := MovieJson(d);
    MovieJsonAccepted(d, isUrl);
    MovieJsonDescribes(d);
    ValidateMovieAccepts(j, isUrl);
    DescribesUnique(j.fields, d, ValidateMovie(j, isUrl).value);
  }

  /**
   * Normalisation is idempotent: a validated record, sent back as JSON,
   * validates to itself.
   */
  lemma RevalidateIsIdentity(body: Json, isUrl: string -> bool)
    requires ValidateMovie(body, isUrl).Success?
    ensures ValidateMovie(MovieJson(ValidateMovie(body, isUrl).value), isUrl) == ValidateMovie(body, isUrl)
  {
    MovieJsonValidates(ValidateMovie(body, isUrl).value, isUrl);
  }

  /** A genre outside the listed values is accepted: the list is never checked. */
  lemma GenreListNotEnforced(d: MovieData, isUrl: string -> bool)
    requires ValidData(d, isUrl) && d.genre == ["Horror"]
    ensures "Horror" !in GenreValues
    ensures ValidateMovie(MovieJson(d), isUrl) == Success(d)
  {
    forall k | 0 <= k < |GenreValues|
      ensures GenreValues[k] != "Horror"
    {
      assert GenreValues[k][0] != "Horror"[0];
    }
    MovieJsonValidates(d, isUrl);
  }

  /** An empty title is accepted: the schema sets no length bound. */
  lemma EmptyTitleAccepted(d: MovieData, isUrl: string -> bool)
    requires ValidData(d, isUrl) && d.title == ""
    ensures ValidateMovie(MovieJson(d), isUrl) == Success(d)
  {
    MovieJsonValidates(d, isUrl);
  }
}
