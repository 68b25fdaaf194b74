/**
 * `/api/movies` (`src/app/api/movies/route.js`): GET one movie or a searched, filtered list;
 * POST that names every missing required field at once; PUT of the fields present; DELETE.
 */
module MoviesApi {
  import opened JsLib
  import opened Schema
  import opened Sorting
  import opened Store

  function CreatedAt(m: Movie): string { m.createdAt }

  /** `ORDER BY created_at DESC`. */
  function NewestFirst(): (Movie, Movie) -> bool { DescStr(CreatedAt) }

  /** `search` (LIKE on the title), `genre` and `rating` (equality), each only when given. */
  predicate Matches(params: Params, m: Movie) {
    var search, genre, rating := Param(params, "search"), Param(params, "genre"), Param(params, "rating");
    && (!Given(search) || Like(m.title, search.value))
    && (!Given(genre) || m.genre == genre.value)
    && (!Given(rating) || m.rating == rating.value)
  }

  predicate ListParamsOk(params: Params) {
    NumericOrAbsent(Param(params, "limit")) && NumericOrAbsent(Param(params, "offset"))
  }

  function Matching(rows: seq<Movie>, params: Params): seq<Movie> {
    Filter(rows, (m: Movie) => Matches(params, m))
  }

  function List(rows: seq<Movie>, params: Params): seq<Movie>
    requires ListParamsOk(params)
  {
    Page(SortBy(Matching(rows, params), NewestFirst()),
         ListLimit(Param(params, "limit")), ListOffset(Param(params, "offset")))
  }

  function Get(movies: Table<Movie>, params: Params): Response<Listing<Movie, Movie>>
    requires Given(Param(params, "id")) || ListParamsOk(params)
  {
    var id := Param(params, "id");
    if Given(id) then
      match ParseInt(id.value)
      case None => Err(400, "INVALID_ID", "Valid ID is required")
      case Some(n) =>
        match Lookup(movies, MovieId, n)
        case None => Err(404, "MOVIE_NOT_FOUND", "Movie not found")
        case Some(m) => Ok(200, One(m))
    else Ok(200, Many(List(movies.rows, params)))
  }

  /** GET by id answers the movie with that id, a 404 for an unknown id, a 400 for an unreadable one. */
  lemma GetById(movies: Table<Movie>, params: Params)
    requires Given(Param(params, "id"))
    ensures var r := Get(movies, params);
      var p := ParseInt(params["id"]);
      && (p.None? <==> r == Err(400, "INVALID_ID", "Valid ID is required"))
      && (p.Some? && Lookup(movies, MovieId, p.value).None? <==> r == Err(404, "MOVIE_NOT_FOUND", "Movie not found"))
      && (r.Ok? ==> r.body.One? && r.body.row in movies.rows && r.body.row.id == p.value)
  {
  }

  /**
   * A list page: each movie from the table and matching the filters, newest first, and no
   * more than the page size, which `Math.min` keeps at or below 100 unless it is negative.
   */
  lemma ListSpec(rows: seq<Movie>, params: Params)
    requires ListParamsOk(params)
    ensures var r := List(rows, params);
      && (0 <= ListLimit(Param(params, "limit")) ==> |r| <= ListLimit(Param(params, "limit")) <= 100)
      && (forall x :: x in r ==> x in rows && Matches(params, x))
      && Sorted(r, NewestFirst())
  {
    var matching := Matching(rows, params);
    var sorted := SortBy(matching, NewestFirst());
    var limit, offset := ListLimit(Param(params, "limit")), ListOffset(Param(params, "offset"));
    DescStrTotal(CreatedAt);
    SortBySorted(matching, NewestFirst());
    SortedSlice(sorted, PageStart(|sorted|, offset), PageEnd(|sorted|, limit, offset), NewestFirst());
    PageOfFiltered(rows, (m: Movie) => Matches(params, m), sorted, limit, offset);
  }

  /**
   * The first page, when it has room, holds every matching movie. A negative `limit` always
   * has room: `Math.min` keeps it and SQLite reads it as no limit.
   */
  lemma ListComplete(rows: seq<Movie>, params: Params)
    requires ListParamsOk(params)
    requires ListOffset(Param(params, "offset")) <= 0
    requires ListLimit(Param(params, "limit")) < 0 || |Matching(rows, params)| <= ListLimit(Param(params, "limit"))
    ensures multiset(List(rows, params)) == multiset(Matching(rows, params))
  {
    var sorted := SortBy(Matching(rows, params), NewestFirst());
    PageAll(sorted, ListLimit(Param(params, "limit")), ListOffset(Param(params, "offset")));
  }

  // ---------------------------------------------------------------------------
  // POST

  const RequiredFields: seq<string> := ["title", "duration", "genre", "rating", "releaseDate"]

  /** `requiredFields.filter(field => !body[field])`. */
  function MissingFields(body: map<string, JsValue>): (missing: seq<string>)
    ensures forall i :: 0 <= i < |missing| ==> missing[i] in RequiredFields && !Truthy(Field(body, missing[i]))
    ensures forall i :: 0 <= i < |RequiredFields| && !Truthy(Field(body, RequiredFields[i])) ==> RequiredFields[i] in missing
  {
    Filter(RequiredFields, (f: string) => !Truthy(Field(body, f)))
  }

  /** `parseInt(body.duration)` when it is a positive number. */
  function Duration(v: JsValue): (r: Option<int>)
    ensures r.Some? ==> r.value > 0 && ParseIntValue(v) == r
    ensures r.None? <==> ParseIntValue(v).None? || ParseIntValue(v).value <= 0
  {
    match ParseIntValue(v)
    case None => None
    case Some(n) => if n <= 0 then None else Some(n)
  }

  /** `v.trim()` on a required text field: a non-string throws. */
  function Text(v: JsValue): (r: Result<string>)
    ensures r.Success? <==> v.Str?
    ensures r.Success? ==> r.value == Trim(v.s)
  {
    if v.Str? then Success(Trim(v.s)) else Failure(TrimNotAFunction)
  }

  /** The sanitized insert: trims in the route's order, any non-string required text throws. */
  function Sanitized(id: int, body: map<string, JsValue>, duration: int, now: string): (r: Result<Movie>)
    ensures r.Success? ==> r.value.id == id && r.value.duration == duration && r.value.createdAt == now
    ensures r.Success? ==> (r.value.description.None? <==> !Truthy(Field(body, "description")))
    ensures r.Success? ==> (r.value.posterImage.None? <==> !Truthy(Field(body, "posterImage")))
    ensures r.Success? ==> (r.value.trailerUrl.None? <==> !Truthy(Field(body, "trailerUrl")))
    ensures r.Success? ==>
      (&& Field(body, "title").Str? && r.value.title == Trim(Field(body, "title").s)
       && Field(body, "genre").Str? && r.value.genre == Trim(Field(body, "genre").s)
       && Field(body, "rating").Str? && r.value.rating == Trim(Field(body, "rating").s)
       && Field(body, "releaseDate").Str? && r.value.releaseDate == Trim(Field(body, "releaseDate").s))
  {
    var title, description := Text(Field(body, "title")), OptionalText(Field(body, "description"));
    var genre, rating := Text(Field(body, "genre")), Text(Field(body, "rating"));
    var poster, trailer := OptionalText(Field(body, "posterImage")), OptionalText(Field(body, "trailerUrl"));
    var release := Text(Field(body, "releaseDate"));
    if title.Failure? || description.Failure? || genre.Failure? || rating.Failure?
       || poster.Failure? || trailer.Failure? || release.Failure? then Failure(TrimNotAFunction)
    else Success(Movie(id, title.value, description.value, duration, genre.value, rating.value,
                       poster.value, trailer.value, release.value, now))
  }

  function Post(movies: Table<Movie>, body: map<string, JsValue>, now: string): (Response<Movie>, Table<Movie>)
  {
    var missing := MissingFields(body);
    if |missing| > 0 then
      (Err(400, "MISSING_REQUIRED_FIELDS", "Missing required fields: " + JoinWith(missing, ", ")), movies)
    else
      match Duration(Field(body, "duration"))
      case None => (Err(400, "INVALID_DURATION", "Duration must be a positive number"), movies)
      case Some(d) =>
        match Sanitized(movies.nextId, body, d, now)
        case Failure(why) => (InternalError(why), movies)
        case Success(m) => (Ok(201, m), Store.Insert(movies, m))
  }

  /**
   * Every falsy required field is reported together, in the order of the required list, and
   * nothing is stored; the duration is checked only once all of them are present.
   */
  lemma PostMissing(movies: Table<Movie>, body: map<string, JsValue>, now: string)
    ensures var (r, after) := Post(movies, body, now);
      var missing := MissingFields(body);
      && ((exists i :: 0 <= i < |RequiredFields| && !Truthy(Field(body, RequiredFields[i]))) <==>
            r == Err(400, "MISSING_REQUIRED_FIELDS", "Missing required fields: " + JoinWith(missing, ", ")))
      && (r.Err? ==> after == movies)
  {
    var missing := MissingFields(body);
    if exists i :: 0 <= i < |RequiredFields| && !Truthy(Field(body, RequiredFields[i])) {
      var i :| 0 <= i < |RequiredFields| && !Truthy(Field(body, RequiredFields[i]));
      assert RequiredFields[i] in missing;
    }
  }

  /**
   * A created movie has a positive duration read by `parseInt`, trimmed required texts, null
   * for a falsy optional text, and the next id; it is appended to the table.
   */
  lemma PostCreates(movies: Table<Movie>, body: map<string, JsValue>, now: string)
    ensures var (r, after) := Post(movies, body, now);
      r.Ok? ==>
        (&& r.status == 201 && after == Store.Insert(movies, r.body) && r.body.id == movies.nextId
         && r.body.duration > 0 && ParseIntValue(Field(body, "duration")) == Some(r.body.duration)
         && r.body.title == Trim(Field(body, "title").s)
         && r.body.releaseDate == Trim(Field(body, "releaseDate").s)
         && (r.body.description.None? <==> !Truthy(Field(body, "description"))))
  {
  }

  /** With all required fields present, a duration `parseInt` cannot read or reads as 0 or less is refused. */
  lemma PostDuration(movies: Table<Movie>, body: map<string, JsValue>, now: string)
    requires forall i :: 0 <= i < |RequiredFields| ==> Truthy(Field(body, RequiredFields[i]))
    ensures var p := ParseIntValue(Field(body, "duration"));
      (p.None? || p.value <= 0) <==>
        Post(movies, body, now) == (Err(400, "INVALID_DURATION", "Duration must be a positive number"), movies)
  {
  }

  // ---------------------------------------------------------------------------
  // PUT

  /** `updateData`: `None` for a key left out; on a nullable column `Some(None)` stores null. */
  datatype Patch = Patch(
    title: Option<string>, description: Option<Option<string>>, duration: Option<int>,
    genre: Option<string>, rating: Option<string>, posterImage: Option<Option<string>>,
    trailerUrl: Option<Option<string>>, releaseDate: Option<string>)

  /** `Object.keys(updateData).length === 0`. */
  predicate EmptyPatch(p: Patch) {
    p.title.None? && p.description.None? && p.duration.None? && p.genre.None? && p.rating.None?
    && p.posterImage.None? && p.trailerUrl.None? && p.releaseDate.None?
  }

  function Pick<T>(o: Option<T>, keep: T): T { if o.Some? then o.value else keep }

  /** The row after the update; `id` and `createdAt` are never in the patch. */
  function Apply(m: Movie, p: Patch): Movie {
    m.(title := Pick(p.title, m.title), description := Pick(p.description, m.description),
       duration := Pick(p.duration, m.duration), genre := Pick(p.genre, m.genre),
       rating := Pick(p.rating, m.rating), posterImage := Pick(p.posterImage, m.posterImage),
       trailerUrl := Pick(p.trailerUrl, m.trailerUrl), releaseDate := Pick(p.releaseDate, m.releaseDate))
  }

  /** `if (v !== undefined) updateData.key = v.trim()`: null or any non-string throws. */
  function TextUpdate(v: JsValue): (r: Step<Option<string>, Movie>)
    ensures r.Next? ==> (r.value.None? <==> v.Undefined?)
    ensures r.Next? && r.value.Some? ==> v.Str? && r.value.value == Trim(v.s)
    ensures r.Stop? <==> !v.Undefined? && !v.Str?
    ensures r.Stop? ==> r.response.Err?
  {
    if v.Undefined? then Next(None)
    else if v.Str? then Next(Some(Trim(v.s)))
    else Stop(InternalError(TrimNotAFunction))
  }

  /** `if (v !== undefined) updateData.key = v ? v.trim() : null`. */
  function NullableUpdate(v: JsValue): (r: Step<Option<Option<string>>, Movie>)
    ensures r.Next? ==> (r.value.None? <==> v.Undefined?)
    ensures r.Next? && r.value.Some? ==> (r.value.value.None? <==> !Truthy(v))
    ensures v.Str? && v.s != "" ==> r == Next(Some(Some(Trim(v.s))))
    ensures r.Stop? <==> Truthy(v) && !v.Str?
    ensures r.Stop? ==> r.response.Err?
  {
    if v.Undefined? then Next(None)
    else match OptionalText(v)
      case Failure(why) => Stop(InternalError(why))
      case Success(t) => Next(Some(t))
  }

  /** `if (duration !== undefined)`: it must read as a positive number. */
  function DurationUpdate(v: JsValue): (r: Step<Option<int>, Movie>)
    ensures r.Next? ==> (r.value.None? <==> v.Undefined?)
    ensures r.Next? && r.value.Some? ==> r.value.value > 0 && ParseIntValue(v) == r.value
    ensures r.Stop? <==> !v.Undefined? && Duration(v).None?
    ensures r.Stop? ==> r.response.Err?
  {
    if v.Undefined? then Next(None)
    else match Duration(v)
      case None => Stop(Err(400, "INVALID_DURATION", "Duration must be a positive number"))
      case Some(d) => Next(Some(d))
  }

  /** The first four keys of `updateData`, in the route's order. */
  function LeadingUpdates(body: map<string, JsValue>): (r: Step<Patch, Movie>)
    ensures r.Stop? ==> r.response.Err?
  {
    match TextUpdate(Field(body, "title"))
    case Stop(r) => Stop(r)
    case Next(title) =>
      match NullableUpdate(Field(body, "description"))
      case Stop(r) => Stop(r)
      case Next(description) =>
        match DurationUpdate(Field(body, "duration"))
        case Stop(r) => Stop(r)
        case Next(duration) =>
          match TextUpdate(Field(body, "genre"))
          case Stop(r) => Stop(r)
          case Next(genre) => Next(Patch(title, description, duration, genre, None, None, None, None))
  }

  /** The remaining four keys, added to the patch built so far. */
  function TrailingUpdates(body: map<string, JsValue>, p: Patch): (r: Step<Patch, Movie>)
    ensures r.Stop? ==> r.response.Err?
  {
    match TextUpdate(Field(body, "rating"))
    case Stop(r) => Stop(r)
    case Next(rating) =>
      match NullableUpdate(Field(body, "posterImage"))
      case Stop(r) => Stop(r)
      case Next(posterImage) =>
        match NullableUpdate(Field(body, "trailerUrl"))
        case Stop(r) => Stop(r)
        case Next(trailerUrl) =>
          match TextUpdate(Field(body, "releaseDate"))
          case Stop(r) => Stop(r)
          case Next(releaseDate) =>
            Next(Patch(p.title, p.description, p.duration, p.genre, rating, posterImage, trailerUrl, releaseDate))
  }

  function PatchOf(body: map<string, JsValue>): (r: Step<Patch, Movie>)
    ensures r.Stop? ==> r.response.Err?
  {
    match LeadingUpdates(body)
    case Stop(r) => Stop(r)
    case Next(p) => TrailingUpdates(body, p)
  }

  function Put(movies: Table<Movie>, params: Params, body: map<string, JsValue>): (Response<Movie>, Table<Movie>)
  {
    match IdParam(Param(params, "id"))
    case None => (Err(400, "INVALID_ID", "Valid ID is required"), movies)
    case Some(n) =>
      match Lookup(movies, MovieId, n)
      case None => (Err(404, "MOVIE_NOT_FOUND", "Movie not found"), movies)
      case Some(m) =>
        match Updated(m, body)
        case Stop(r) => (r, movies)
        case Next(m') => (Ok(200, m'), Replace(movies, MovieId, n, m'))
  }

  /** The stored movie after the body is applied, or the response that stops the update. */
  function Updated(m: Movie, body: map<string, JsValue>): (r: Step<Movie, Movie>)
    ensures r.Stop? ==> r.response.Err?
  {
    match PatchOf(body)
    case Stop(r) => Stop(r)
    case Next(p) =>
      if EmptyPatch(p) then Stop(Err(400, "NO_FIELDS_TO_UPDATE", "No valid fields to update"))
      else Next(Apply(m, p))
  }

  /**
   * How a successful PUT relates the stored row to the body: id and `createdAt` kept, a column
   * whose key is absent kept, texts trimmed, a falsy optional text stored as null, a new
   * duration positive and read by `parseInt`.
   */
  predicate UpdatedFrom(before: Movie, after: Movie, body: map<string, JsValue>) {
    && after.id == before.id && after.createdAt == before.createdAt
    && (Field(body, "title").Undefined? ==> after.title == before.title)
    && (!Field(body, "title").Undefined? ==> Field(body, "title").Str? && after.title == Trim(Field(body, "title").s))
    && NullableStored(before.description, after.description, Field(body, "description"))
    && (Field(body, "duration").Undefined? ==> after.duration == before.duration)
    && (!Field(body, "duration").Undefined? ==> after.duration > 0 && ParseIntValue(Field(body, "duration")) == Some(after.duration))
    && (Field(body, "genre").Undefined? ==> after.genre == before.genre)
    && (!Field(body, "genre").Undefined? ==> Field(body, "genre").Str? && after.genre == Trim(Field(body, "genre").s))
    && (Field(body, "rating").Undefined? ==> after.rating == before.rating)
    && (!Field(body, "rating").Undefined? ==> Field(body, "rating").Str? && after.rating == Trim(Field(body, "rating").s))
    && NullableStored(before.posterImage, after.posterImage, Field(body, "posterImage"))
    && NullableStored(before.trailerUrl, after.trailerUrl, Field(body, "trailerUrl"))
    && (Field(body, "releaseDate").Undefined? ==> after.releaseDate == before.releaseDate)
    && (!Field(body, "releaseDate").Undefined? ==>
          Field(body, "releaseDate").Str? && after.releaseDate == Trim(Field(body, "releaseDate").s))
  }

  /**
   * A nullable text column after the update: kept when its key is absent, null when the value
   * is falsy, else the trimmed string.
   */
  predicate NullableStored(before: Option<string>, after: Option<string>, v: JsValue) {
    && (v.Undefined? ==> after == before)
    && (!v.Undefined? && !Truthy(v) ==> after.None?)
    && (Truthy(v) ==> v.Str? && after == Some(Trim(v.s)))
  }

  /** A text key of the patch: absent exactly when absent from the body, else the trimmed string. */
  predicate TextFrom(o: Option<string>, v: JsValue) {
    (v.Undefined? <==> o.None?) && (o.Some? ==> v.Str? && o.value == Trim(v.s))
  }

  /** A nullable text key of the patch: absent when absent from the body, null when falsy, else trimmed. */
  predicate NullableFrom(o: Option<Option<string>>, v: JsValue) {
    && (v.Undefined? <==> o.None?)
    && (o.Some? ==> (o.value.None? <==> !Truthy(v)))
    && (o.Some? && Truthy(v) ==> v.Str? && o.value == Some(Trim(v.s)))
  }

  /** The first four keys of a patch as the body gives them. */
  predicate LeadingFrom(p: Patch, body: map<string, JsValue>) {
    && TextFrom(p.title, Field(body, "title"))
    && NullableFrom(p.description, Field(body, "description"))
    && (Field(body, "duration").Undefined? <==> p.duration.None?)
    && (p.duration.Some? ==> p.duration.value > 0 && ParseIntValue(Field(body, "duration")) == p.duration)
    && TextFrom(p.genre, Field(body, "genre"))
  }

  /** The last four keys of a patch as the body gives them. */
  predicate TrailingFrom(p: Patch, body: map<string, JsValue>) {
    && TextFrom(p.rating, Field(body, "rating"))
    && NullableFrom(p.posterImage, Field(body, "posterImage"))
    && NullableFrom(p.trailerUrl, Field(body, "trailerUrl"))
    && TextFrom(p.releaseDate, Field(body, "releaseDate"))
  }

  lemma LeadingUpdatesSpec(body: map<string, JsValue>)
    ensures LeadingUpdates(body).Next? ==> LeadingFrom(LeadingUpdates(body).value, body)
  {
    match TextUpdate(Field(body, "title"))
    case Stop(_) =>
    case Next(title) =>
      match NullableUpdate(Field(body, "description"))
      case Stop(_) =>
      case Next(description) =>
        match DurationUpdate(Field(body, "duration"))
        case Stop(_) =>
        case Next(duration) =>
          match TextUpdate(Field(body, "genre"))
          case Stop(_) =>
          case Next(genre) =>
            assert LeadingUpdates(body) == Next(Patch(title, description, duration, genre, None, None, None, None));
  }

  lemma TrailingUpdatesSpec(body: map<string, JsValue>, p: Patch)
    ensures TrailingUpdates(body, p).Next? ==>
      var q := TrailingUpdates(body, p).value;
      TrailingFrom(q, body) && q.title == p.title && q.description == p.description
      && q.duration == p.duration && q.genre == p.genre
  {
    match TextUpdate(Field(body, "rating"))
    case Stop(_) =>
    case Next(rating) =>
      match NullableUpdate(Field(body, "posterImage"))
      case Stop(_) =>
      case Next(posterImage) =>
        match NullableUpdate(Field(body, "trailerUrl"))
        case Stop(_) =>
        case Next(trailerUrl) =>
          match TextUpdate(Field(body, "releaseDate"))
          case Stop(_) =>
          case Next(releaseDate) =>
            assert TrailingUpdates(body, p)
              == Next(Patch(p.title, p.description, p.duration, p.genre, rating, posterImage, trailerUrl, releaseDate));
  }

  /** A patch read as the route reads it gives a row `UpdatedFrom` the old one. */
  lemma ApplySpec(m: Movie, p: Patch, body: map<string, JsValue>)
    requires LeadingFrom(p, body) && TrailingFrom(p, body)
    ensures UpdatedFrom(m, Apply(m, p), body)
  {
  }

  /** An applied body gives a row `UpdatedFrom` the old one. */
  lemma UpdatedSpec(m: Movie, body: map<string, JsValue>)
    ensures Updated(m, body).Next? ==> UpdatedFrom(m, Updated(m, body).value, body)
  {
    match PatchOf(body)
    case Stop(_) =>
    case Next(q) =>
      LeadingUpdatesSpec(body);
      var lead := LeadingUpdates(body).value;
      TrailingUpdatesSpec(body, lead);
      assert q == TrailingUpdates(body, lead).value;
      ApplySpec(m, q, body);
  }

  /** A successful PUT replaces only the named row, with a row `UpdatedFrom` the old one. */
  lemma PutUpdates(movies: Table<Movie>, params: Params, body: map<string, JsValue>)
    ensures var (r, after) := Put(movies, params, body);
      && (r.Err? ==> after == movies)
      && (r.Ok? ==>
          var n := IdParam(Param(params, "id")).value;
          (&& Lookup(movies, MovieId, n).Some?
           && after == Replace(movies, MovieId, n, r.body)
           && UpdatedFrom(Lookup(movies, MovieId, n).value, r.body, body)))
  {
    match IdParam(Param(params, "id"))
    case None =>
    case Some(n) =>
      match Lookup(movies, MovieId, n)
      case None =>
      case Some(m) =>
        UpdatedSpec(m, body);
  }

  /**
   * A body with none of the eight keys is refused with NO_FIELDS_TO_UPDATE; one whose keys
   * all parse is applied.
   */
  lemma PutNoFields(movies: Table<Movie>, params: Params, body: map<string, JsValue>)
    requires IdParam(Param(params, "id")).Some?
    requires Lookup(movies, MovieId, IdParam(Param(params, "id")).value).Some?
    requires forall k :: k in ["title", "description", "duration", "genre", "rating", "posterImage", "trailerUrl", "releaseDate"]
               ==> k !in body
    ensures Put(movies, params, body) == (Err(400, "NO_FIELDS_TO_UPDATE", "No valid fields to update"), movies)
  {
    var keys := ["title", "description", "duration", "genre", "rating", "posterImage", "trailerUrl", "releaseDate"];
    assert keys[0] !in body && keys[1] !in body && keys[2] !in body && keys[3] !in body;
    assert keys[4] !in body && keys[5] !in body && keys[6] !in body && keys[7] !in body;
    LeadingUpdatesSpec(body);
    TrailingUpdatesSpec(body, LeadingUpdates(body).value);
  }

  // ---------------------------------------------------------------------------
  // DELETE

  const MovieNotFound: Response<Deletion<Movie>> := Err(404, "MOVIE_NOT_FOUND", "Movie not found")

  function Delete(movies: Table<Movie>, params: Params): (Response<Deletion<Movie>>, Table<Movie>)
  {
    DeleteById(movies, MovieId, params, MovieNotFound, "Movie deleted successfully")
  }

  // ---------------------------------------------------------------------------
  // Handlers

  method PostHandler(db: Db, body: map<string, JsValue>, now: string) returns (r: Response<Movie>)
    modifies db`movies
    ensures (r, db.movies) == Post(old(db.movies), body, now)
  {
    var missing := MissingFields(body);
    if |missing| > 0 {
      return Err(400, "MISSING_REQUIRED_FIELDS", "Missing required fields: " + JoinWith(missing, ", "));
    }
    var duration := Duration(Field(body, "duration"));
    if duration.None? {
      return Err(400, "INVALID_DURATION", "Duration must be a positive number");
    }
    var movie := Sanitized(db.movies.nextId, body, duration.value, now);
    if movie.Failure? {
      return InternalError(movie.reason);
    }
    db.movies := Store.Insert(db.movies, movie.value);
    r := Ok(201, movie.value);
  }

  /** PUT as the route runs it: id, existence, then `updateData` one key at a time. */
  method PutHandler(db: Db, params: Params, body: map<string, JsValue>) returns (r: Response<Movie>)
    modifies db`movies
    ensures (r, db.movies) == Put(old(db.movies), params, body)
  {
    var n := IdParam(Param(params, "id"));
    if n.None? { return Err(400, "INVALID_ID", "Valid ID is required"); }
    var existing := Lookup(db.movies, MovieId, n.value);
    if existing.None? { return Err(404, "MOVIE_NOT_FOUND", "Movie not found"); }
    var lead := LeadingUpdates(body);
    if lead.Stop? { return lead.response; }
    var updateData := TrailingUpdates(body, lead.value);
    if updateData.Stop? { return updateData.response; }
    if EmptyPatch(updateData.value) {
      return Err(400, "NO_FIELDS_TO_UPDATE", "No valid fields to update");
    }
    var row := Apply(existing.value, updateData.value);
    db.movies := Replace(db.movies, MovieId, n.value, row);
    r := Ok(200, row);
  }

  method DeleteHandler(db: Db, params: Params) returns (r: Response<Deletion<Movie>>)
    modifies db`movies
    ensures (r, db.movies) == Delete(old(db.movies), params)
  {
    var n := IdParam(Param(params, "id"));
    if n.None? { return Err(400, "INVALID_ID", "Valid ID is required"); }
    var existing := Lookup(db.movies, MovieId, n.value);
    if existing.None? { return MovieNotFound; }
    db.movies := Remove(db.movies, MovieId, n.value);
    r := Ok(200, Deletion("Movie deleted successfully", existing.value));
  }
}
