/**
 * `/api/showtimes` (`src/app/api/showtimes/route.js`): GET one showtime joined with its movie
 * or a filtered, ordered page of showtimes; POST with required-field, movie and numeric checks;
 * PUT of the fields present in the body; DELETE.
 */
module ShowtimesApi {
  import opened JsLib
  import opened Schema
  import opened Sorting
  import opened Store

  /** A showtime with its movie from `LEFT JOIN movies` (`None` when the movie is gone). */
  datatype ShowtimeWithMovie = ShowtimeWithMovie(showtime: Showtime, movie: Option<Movie>)

  function ShowDate(s: Showtime): string { s.showDate }
  function ShowTime(s: Showtime): string { s.showTime }

  /** `ORDER BY show_date DESC, show_time DESC`. */
  function ShowtimeOrder(): (Showtime, Showtime) -> bool {
    ThenBy(DescStr(ShowDate), DescStr(ShowTime))
  }

  lemma ShowtimeOrderTotal()
    ensures TotalPreorder(ShowtimeOrder())
  {
    DescStrTotal(ShowDate);
    DescStrTotal(ShowTime);
    ThenByTotal(DescStr(ShowDate), DescStr(ShowTime));
  }

  /** `eq(column, parseInt(p))` when `p` is given; a NaN binds as NULL and matches no row. */
  predicate MatchesInt(p: Option<string>, v: int) {
    !Given(p) || ParseInt(p.value) == Some(v)
  }

  /** `eq(column, p)` when `p` is given. */
  predicate MatchesText(p: Option<string>, v: string) {
    !Given(p) || p.value == v
  }

  /** The conjunction of the `movie_id`, `date` and `screen_number` filters. */
  predicate Matches(params: Params, s: Showtime) {
    MatchesInt(Param(params, "movie_id"), s.movieId) &&
    MatchesText(Param(params, "date"), s.showDate) &&
    MatchesInt(Param(params, "screen_number"), s.screenNumber)
  }

  predicate ListParamsOk(params: Params) {
    NumericOrAbsent(Param(params, "limit")) && NumericOrAbsent(Param(params, "offset"))
  }

  function Matching(rows: seq<Showtime>, params: Params): seq<Showtime> {
    Filter(rows, (s: Showtime) => Matches(params, s))
  }

  /** The list query: filter, order, then the LIMIT/OFFSET window. */
  function List(rows: seq<Showtime>, params: Params): seq<Showtime>
    requires ListParamsOk(params)
  {
    Page(SortBy(Matching(rows, params), ShowtimeOrder()),
         ListLimit(Param(params, "limit")), ListOffset(Param(params, "offset")))
  }

  function Get(showtimes: Table<Showtime>, movies: Table<Movie>, params: Params): Response<Listing<ShowtimeWithMovie, Showtime>>
    requires Given(Param(params, "id")) || ListParamsOk(params)
  {
    var id := Param(params, "id");
    if Given(id) then
      match ParseInt(id.value)
      case None => Err(400, "INVALID_ID", "Valid ID is required")
      case Some(n) =>
        match Lookup(showtimes, ShowtimeId, n)
        case None => Err(404, "SHOWTIME_NOT_FOUND", "Showtime not found")
        case Some(s) => Ok(200, One(ShowtimeWithMovie(s, Lookup(movies, MovieId, s.movieId))))
    else Ok(200, Many(List(showtimes.rows, params)))
  }

  /** GET by id: the showtime with that id, carrying the movie it references when it exists. */
  lemma GetById(showtimes: Table<Showtime>, movies: Table<Movie>, params: Params)
    requires Given(Param(params, "id"))
    ensures var r := Get(showtimes, movies, params);
      && (ParseInt(params["id"]).None? ==> r == Err(400, "INVALID_ID", "Valid ID is required"))
      && (r.Ok? ==> r.body.One? && r.body.row.showtime in showtimes.rows
                    && Some(r.body.row.showtime.id) == ParseInt(params["id"])
                    && (r.body.row.movie.Some? <==> HasMovie(movies.rows, r.body.row.showtime.movieId)))
  {
    match ParseInt(params["id"])
    case None =>
    case Some(n) =>
      match Lookup(showtimes, ShowtimeId, n)
      case None =>
      case Some(s) =>
        LookupMovie(movies, s.movieId);
        assert Get(showtimes, movies, params) == Ok(200, One(ShowtimeWithMovie(s, Lookup(movies, MovieId, s.movieId))));
  }

  /**
   * A list page holds showtimes from the table that match every filter given, in descending
   * date then time order, and no more than a non-negative page size (at most 100).
   */
  lemma ListSpec(rows: seq<Showtime>, params: Params)
    requires ListParamsOk(params)
    ensures var r := List(rows, params);
      && (0 <= ListLimit(Param(params, "limit")) ==> |r| <= ListLimit(Param(params, "limit")) <= 100)
      && (forall x :: x in r ==> x in rows && Matches(params, x))
      && Sorted(r, ShowtimeOrder())
  {
    var matching := Matching(rows, params);
    var sorted := SortBy(matching, ShowtimeOrder());
    var limit, offset := ListLimit(Param(params, "limit")), ListOffset(Param(params, "offset"));
    ShowtimeOrderTotal();
    SortBySorted(matching, ShowtimeOrder());
    SortedSlice(sorted, PageStart(|sorted|, offset), PageEnd(|sorted|, limit, offset), ShowtimeOrder());
    PageOfFiltered(rows, (s: Showtime) => Matches(params, s), sorted, limit, offset);
  }

  /**
   * The first page, when it has room, holds every matching showtime. A negative `limit` always
   * has room: `Math.min` keeps it and SQLite reads it as no limit.
   */
  lemma ListComplete(rows: seq<Showtime>, params: Params)
    requires ListParamsOk(params)
    requires ListOffset(Param(params, "offset")) <= 0
    requires ListLimit(Param(params, "limit")) < 0 || |Matching(rows, params)| <= ListLimit(Param(params, "limit"))
    ensures multiset(List(rows, params)) == multiset(Matching(rows, params))
  {
    var sorted := SortBy(Matching(rows, params), ShowtimeOrder());
    PageAll(sorted, ListLimit(Param(params, "limit")), ListOffset(Param(params, "offset")));
  }

  // ---------------------------------------------------------------------------
  // POST

  const RequiredFields: seq<string> := ["movieId", "showDate", "showTime", "screenNumber", "totalSeats", "price"]
  const MissingCodes: seq<string> :=
    ["MISSING_MOVIE_ID", "MISSING_SHOW_DATE", "MISSING_SHOW_TIME", "MISSING_SCREEN_NUMBER", "MISSING_TOTAL_SEATS", "MISSING_PRICE"]

  function Missing(i: nat): Response<Showtime>
    requires i < 6
  {
    Err(400, MissingCodes[i], RequiredFields[i] + " is required")
  }

  /** POST as a function of the tables: the response and the showtimes table afterwards. */
  function Post(showtimes: Table<Showtime>, movies: Table<Movie>, body: map<string, JsValue>, now: string): (Response<Showtime>, Table<Showtime>)
  {
    var movieId, showDate, showTime := Field(body, "movieId"), Field(body, "showDate"), Field(body, "showTime");
    var screenNumber, totalSeats, price := Field(body, "screenNumber"), Field(body, "totalSeats"), Field(body, "price");
    if !Truthy(movieId) then (Missing(0), showtimes)
    else if !Truthy(showDate) then (Missing(1), showtimes)
    else if !Truthy(showTime) then (Missing(2), showtimes)
    else if !Truthy(screenNumber) then (Missing(3), showtimes)
    else if !Truthy(totalSeats) then (Missing(4), showtimes)
    else if !Truthy(price) then (Missing(5), showtimes)
    else
      var m, sn, ts, p := ParseIntValue(movieId), ParseIntValue(screenNumber), ParseIntValue(totalSeats), ParseIntValue(price);
      if m.None? || Lookup(movies, MovieId, m.value).None? then
        (Err(400, "MOVIE_NOT_FOUND", "Movie not found with provided movieId"), showtimes)
      else if m.None? || sn.None? || ts.None? || p.None? then
        (Err(400, "INVALID_NUMERIC_FIELDS", "movieId, screenNumber, totalSeats, and price must be valid numbers"), showtimes)
      else if !showDate.Str? || !showTime.Str? then (InternalError(TrimNotAFunction), showtimes)
      else
        var row := Showtime(showtimes.nextId, m.value, Trim(showDate.s), Trim(showTime.s),
                            sn.value, ts.value, ts.value, p.value, now);
        (Ok(201, row), Store.Insert(showtimes, row))
  }

  /** The first falsy required field, in the order the route checks them, decides the error. */
  lemma PostFirstMissing(showtimes: Table<Showtime>, movies: Table<Movie>, body: map<string, JsValue>, now: string, i: nat)
    requires i < 6 && !Truthy(Field(body, RequiredFields[i]))
    requires forall j :: 0 <= j < i ==> Truthy(Field(body, RequiredFields[j]))
    ensures Post(showtimes, movies, body, now) == (Missing(i), showtimes)
  {
    assert forall j :: 0 <= j < 6 ==> RequiredFields[j] == ["movieId", "showDate", "showTime", "screenNumber", "totalSeats", "price"][j];
    if i > 0 { assert Truthy(Field(body, RequiredFields[0])); }
    if i > 1 { assert Truthy(Field(body, RequiredFields[1])); }
    if i > 2 { assert Truthy(Field(body, RequiredFields[2])); }
    if i > 3 { assert Truthy(Field(body, RequiredFields[3])); }
    if i > 4 { assert Truthy(Field(body, RequiredFields[4])); }
  }

  /** A price of 0 is falsy, so it is refused (by MISSING_PRICE or an earlier check). */
  lemma PostZeroPriceRefused(showtimes: Table<Showtime>, movies: Table<Movie>, body: map<string, JsValue>, now: string)
    requires Field(body, "price") == Num(0)
    ensures Post(showtimes, movies, body, now).0.Err?
    ensures Post(showtimes, movies, body, now).1 == showtimes
  {
  }

  /**
   * The movie must exist, and that is checked before the numeric fields: with every required
   * field truthy and no such movie, the answer is MOVIE_NOT_FOUND whatever the other values.
   * So INVALID_NUMERIC_FIELDS is never caused by `movieId`.
   */
  lemma PostMovieChecks(showtimes: Table<Showtime>, movies: Table<Movie>, body: map<string, JsValue>, now: string)
    requires forall j :: 0 <= j < 6 ==> Truthy(Field(body, RequiredFields[j]))
    ensures var m := ParseIntValue(Field(body, "movieId"));
      (m.None? || !HasMovie(movies.rows, m.value)) <==>
      Post(showtimes, movies, body, now).0 == Err(400, "MOVIE_NOT_FOUND", "Movie not found with provided movieId")
    ensures Post(showtimes, movies, body, now).0.Err? && Post(showtimes, movies, body, now).0.code == "INVALID_NUMERIC_FIELDS"
      ==> ParseIntValue(Field(body, "movieId")).Some?
  {
    assert forall j :: 0 <= j < 6 ==> RequiredFields[j] == ["movieId", "showDate", "showTime", "screenNumber", "totalSeats", "price"][j];
    assert Truthy(Field(body, RequiredFields[0])) && Truthy(Field(body, RequiredFields[1]));
    assert Truthy(Field(body, RequiredFields[2])) && Truthy(Field(body, RequiredFields[3]));
    assert Truthy(Field(body, RequiredFields[4])) && Truthy(Field(body, RequiredFields[5]));
    var m := ParseIntValue(Field(body, "movieId"));
    var r := Post(showtimes, movies, body, now).0;
    if m.None? {
      assert r == Err(400, "MOVIE_NOT_FOUND", "Movie not found with provided movieId");
    } else {
      LookupMovie(movies, m.value);
      if Lookup(movies, MovieId, m.value).None? {
        assert r == Err(400, "MOVIE_NOT_FOUND", "Movie not found with provided movieId");
      } else {
        assert r.Ok? || r.code != "MOVIE_NOT_FOUND";
      }
    }
  }

  /** The movies table answers a lookup by id exactly when it holds a movie with that id. */
  lemma LookupMovie(movies: Table<Movie>, id: int)
    ensures Lookup(movies, MovieId, id).Some? <==> HasMovie(movies.rows, id)
  {
    if HasMovie(movies.rows, id) {
      var x :| x in movies.rows && x.id == id;
      var k :| 0 <= k < |movies.rows| && movies.rows[k] == x;
      assert MovieId(movies.rows[k]) == id;
    }
  }

  /**
   * A created showtime gets the next id, trimmed date and time, an existing movie, and as many
   * available seats as seats in total; it is appended and nothing else changes. On any error
   * the table is unchanged.
   */
  lemma PostCreates(showtimes: Table<Showtime>, movies: Table<Movie>, body: map<string, JsValue>, now: string)
    ensures var (r, after) := Post(showtimes, movies, body, now);
      && (r.Err? ==> after == showtimes)
      && (r.Ok? ==>
            (&& r.status == 201 && after == Store.Insert(showtimes, r.body)
             && r.body.id == showtimes.nextId && r.body.createdAt == now
             && r.body.availableSeats == r.body.totalSeats
             && HasMovie(movies.rows, r.body.movieId)
             && r.body.showDate == Trim(Field(body, "showDate").s)
             && r.body.showTime == Trim(Field(body, "showTime").s)))
  {
  }

  // ---------------------------------------------------------------------------
  // PUT

  /**
   * The `updates` object: `None` for a key left out; for an integer column `Some(None)` is a
   * `parseInt` that gave NaN, which binds as NULL.
   */
  datatype Patch = Patch(
    movieId: Option<int>, showDate: Option<string>, showTime: Option<string>,
    screenNumber: Option<Option<int>>, totalSeats: Option<Option<int>>,
    availableSeats: Option<Option<int>>, price: Option<Option<int>>)

  predicate EmptyPatch(p: Patch) {
    p.movieId.None? && p.showDate.None? && p.showTime.None? && p.screenNumber.None?
    && p.totalSeats.None? && p.availableSeats.None? && p.price.None?
  }

  predicate HasNull(p: Patch) {
    (p.screenNumber.Some? && p.screenNumber.value.None?) || (p.totalSeats.Some? && p.totalSeats.value.None?)
    || (p.availableSeats.Some? && p.availableSeats.value.None?) || (p.price.Some? && p.price.value.None?)
  }

  function IntUpdate(v: JsValue): Option<Option<int>> {
    if v.Undefined? then None else Some(ParseIntValue(v))
  }

  function Pick<T>(o: Option<T>, keep: T): T { if o.Some? then o.value else keep }

  /** The row after the update: the keys in the patch replace their columns, the rest stay. */
  function Apply(s: Showtime, p: Patch): Showtime
    requires !HasNull(p)
  {
    s.(movieId := Pick(p.movieId, s.movieId), showDate := Pick(p.showDate, s.showDate),
       showTime := Pick(p.showTime, s.showTime),
       screenNumber := Pick(Pick(p.screenNumber, Some(s.screenNumber)), 0),
       totalSeats := Pick(Pick(p.totalSeats, Some(s.totalSeats)), 0),
       availableSeats := Pick(Pick(p.availableSeats, Some(s.availableSeats)), 0),
       price := Pick(Pick(p.price, Some(s.price)), 0))
  }

  /** The body read into a patch, or the response that stops it (unknown movie, `trim` of a non-string). */
  function PatchOf(movies: Table<Movie>, body: map<string, JsValue>): Result<Patch>
  {
    var movieId := Field(body, "movieId");
    var showDate, showTime := Field(body, "showDate"), Field(body, "showTime");
    var m := ParseIntValue(movieId);
    if !movieId.Undefined? && (m.None? || Lookup(movies, MovieId, m.value).None?) then
      Failure("MOVIE_NOT_FOUND")
    else if !showDate.Undefined? && !showDate.Str? then Failure(TrimNotAFunction)
    else if !showTime.Undefined? && !showTime.Str? then Failure(TrimNotAFunction)
    else Success(Patch(
      if movieId.Undefined? then None else m,
      if showDate.Undefined? then None else Some(Trim(showDate.s)),
      if showTime.Undefined? then None else Some(Trim(showTime.s)),
      IntUpdate(Field(body, "screenNumber")), IntUpdate(Field(body, "totalSeats")),
      IntUpdate(Field(body, "availableSeats")), IntUpdate(Field(body, "price"))))
  }

  function Put(showtimes: Table<Showtime>, movies: Table<Movie>, params: Params, body: map<string, JsValue>): (Response<Showtime>, Table<Showtime>)
  {
    match IdParam(Param(params, "id"))
    case None => (Err(400, "INVALID_ID", "Valid ID is required"), showtimes)
    case Some(n) =>
      match Lookup(showtimes, ShowtimeId, n)
      case None => (Err(404, "SHOWTIME_NOT_FOUND", "Showtime not found"), showtimes)
      case Some(s) =>
        match PatchOf(movies, body)
        case Failure(why) =>
          if why == "MOVIE_NOT_FOUND" then (Err(400, "MOVIE_NOT_FOUND", "Movie not found with provided movieId"), showtimes)
          else (InternalError(why), showtimes)
        case Success(p) =>
          if EmptyPatch(p) then (InternalError(NoValuesToSet), showtimes)
          else if HasNull(p) then (InternalError(NotNullFailed), showtimes)
          else (Ok(200, Apply(s, p)), Replace(showtimes, ShowtimeId, n, Apply(s, p)))
  }

  /** An unknown showtime is a 404 before the body is read: every body gets the same answer. */
  lemma PutUnknownIgnoresBody(showtimes: Table<Showtime>, movies: Table<Movie>, params: Params,
                              b1: map<string, JsValue>, b2: map<string, JsValue>)
    requires IdParam(Param(params, "id")).Some?
    requires Lookup(showtimes, ShowtimeId, IdParam(Param(params, "id")).value).None?
    ensures Put(showtimes, movies, params, b1) == Put(showtimes, movies, params, b2)
    ensures Put(showtimes, movies, params, b1) == (Err(404, "SHOWTIME_NOT_FOUND", "Showtime not found"), showtimes)
  {
  }

  /**
   * How a successful PUT relates the stored row to the body: the id and `createdAt` are kept,
   * a column whose key is absent keeps its value, a new movie id names an existing movie, and
   * text and numbers present in the body are stored trimmed and parsed.
   */
  predicate UpdatedFrom(before: Showtime, after: Showtime, movies: Table<Movie>, body: map<string, JsValue>) {
    && after.id == before.id && after.createdAt == before.createdAt
    && (Field(body, "movieId").Undefined? ==> after.movieId == before.movieId)
    && (!Field(body, "movieId").Undefined? ==> HasMovie(movies.rows, after.movieId))
    && (Field(body, "movieId").Num? ==> after.movieId == Field(body, "movieId").n)
    && (Field(body, "showDate").Undefined? ==> after.showDate == before.showDate)
    && (Field(body, "showDate").Str? ==> after.showDate == Trim(Field(body, "showDate").s))
    && (Field(body, "showTime").Undefined? ==> after.showTime == before.showTime)
    && (Field(body, "showTime").Str? ==> after.showTime == Trim(Field(body, "showTime").s))
    && (Field(body, "screenNumber").Undefined? ==> after.screenNumber == before.screenNumber)
    && (Field(body, "screenNumber").Num? ==> after.screenNumber == Field(body, "screenNumber").n)
    && (Field(body, "totalSeats").Undefined? ==> after.totalSeats == before.totalSeats)
    && (Field(body, "totalSeats").Num? ==> after.totalSeats == Field(body, "totalSeats").n)
    && (Field(body, "availableSeats").Undefined? ==> after.availableSeats == before.availableSeats)
    && (Field(body, "availableSeats").Num? ==> after.availableSeats == Field(body, "availableSeats").n)
    && (Field(body, "price").Undefined? ==> after.price == before.price)
    && (Field(body, "price").Num? ==> after.price == Field(body, "price").n)
  }

  /** The patch read from the body carries each key present, parsed or trimmed, and no other. */
  lemma PatchOfSpec(movies: Table<Movie>, body: map<string, JsValue>)
    ensures PatchOf(movies, body).Success? ==>
      var p := PatchOf(movies, body).value;
      && (Field(body, "movieId").Undefined? <==> p.movieId.None?)
      && (p.movieId.Some? ==> HasMovie(movies.rows, p.movieId.value))
      && (p.movieId.Some? ==> Some(p.movieId.value) == ParseIntValue(Field(body, "movieId")))
      && (Field(body, "showDate").Undefined? <==> p.showDate.None?)
      && (Field(body, "showDate").Str? ==> p.showDate == Some(Trim(Field(body, "showDate").s)))
      && (Field(body, "showTime").Undefined? <==> p.showTime.None?)
      && (Field(body, "showTime").Str? ==> p.showTime == Some(Trim(Field(body, "showTime").s)))
      && p.screenNumber == IntUpdate(Field(body, "screenNumber"))
      && p.totalSeats == IntUpdate(Field(body, "totalSeats"))
      && p.availableSeats == IntUpdate(Field(body, "availableSeats"))
      && p.price == IntUpdate(Field(body, "price"))
  {
    if PatchOf(movies, body).Success? {
      var p := PatchOf(movies, body).value;
      if p.movieId.Some? {
        var x := Lookup(movies, MovieId, p.movieId.value).value;
        assert x in movies.rows && x.id == p.movieId.value;
      }
    }
  }

  /** A successful PUT stores a row related to the old one as `UpdatedFrom` says, and only that row changes. */
  lemma PutUpdates(showtimes: Table<Showtime>, movies: Table<Movie>, params: Params, body: map<string, JsValue>)
    ensures var (r, after) := Put(showtimes, movies, params, body);
      && (r.Err? ==> after == showtimes)
      && (r.Ok? ==>
          var n := IdParam(Param(params, "id")).value;
          (&& Lookup(showtimes, ShowtimeId, n).Some?
           && after == Replace(showtimes, ShowtimeId, n, r.body)
           && UpdatedFrom(Lookup(showtimes, ShowtimeId, n).value, r.body, movies, body)))
  {
    match IdParam(Param(params, "id"))
    case None =>
    case Some(n) =>
      match Lookup(showtimes, ShowtimeId, n)
      case None =>
      case Some(s) =>
        match PatchOf(movies, body)
        case Failure(_) =>
        case Success(p) =>
          if !EmptyPatch(p) && !HasNull(p) {
            assert Put(showtimes, movies, params, body) == (Ok(200, Apply(s, p)), Replace(showtimes, ShowtimeId, n, Apply(s, p)));
            ApplyUpdatedFrom(s, movies, body);
          }
  }

  lemma ApplyUpdatedFrom(s: Showtime, movies: Table<Movie>, body: map<string, JsValue>)
    requires PatchOf(movies, body).Success? && !HasNull(PatchOf(movies, body).value)
    ensures UpdatedFrom(s, Apply(s, PatchOf(movies, body).value), movies, body)
  {
    PatchOfSpec(movies, body);
  }

  // ---------------------------------------------------------------------------
  // DELETE

  const ShowtimeNotFound: Response<Deletion<Showtime>> := Err(404, "SHOWTIME_NOT_FOUND", "Showtime not found")

  function Delete(showtimes: Table<Showtime>, params: Params): (Response<Deletion<Showtime>>, Table<Showtime>)
  {
    DeleteById(showtimes, ShowtimeId, params, ShowtimeNotFound, "Showtime deleted successfully")
  }

  // ---------------------------------------------------------------------------
  // Handlers

  method PostHandler(db: Db, body: map<string, JsValue>, now: string) returns (r: Response<Showtime>)
    modifies db`showtimes
    ensures (r, db.showtimes) == Post(old(db.showtimes), db.movies, body, now)
  {
    var movieId, showDate, showTime := Field(body, "movieId"), Field(body, "showDate"), Field(body, "showTime");
    var screenNumber, totalSeats, price := Field(body, "screenNumber"), Field(body, "totalSeats"), Field(body, "price");
    if !Truthy(movieId) { return Missing(0); }
    if !Truthy(showDate) { return Missing(1); }
    if !Truthy(showTime) { return Missing(2); }
    if !Truthy(screenNumber) { return Missing(3); }
    if !Truthy(totalSeats) { return Missing(4); }
    if !Truthy(price) { return Missing(5); }
    var movie := if ParseIntValue(movieId).None? then None else Lookup(db.movies, MovieId, ParseIntValue(movieId).value);
    if movie.None? {
      return Err(400, "MOVIE_NOT_FOUND", "Movie not found with provided movieId");
    }
    if ParseIntValue(movieId).None? || ParseIntValue(screenNumber).None?
       || ParseIntValue(totalSeats).None? || ParseIntValue(price).None? {
      return Err(400, "INVALID_NUMERIC_FIELDS", "movieId, screenNumber, totalSeats, and price must be valid numbers");
    }
    if !showDate.Str? || !showTime.Str? {
      return InternalError(TrimNotAFunction);
    }
    var total := ParseIntValue(totalSeats).value;
    var row := Showtime(db.showtimes.nextId, ParseIntValue(movieId).value, Trim(showDate.s), Trim(showTime.s),
                        ParseIntValue(screenNumber).value, total, total, ParseIntValue(price).value, now);
    db.showtimes := Store.Insert(db.showtimes, row);
    r := Ok(201, row);
  }

  /** PUT as the route runs it: id, existence, then the `updates` object one key at a time. */
  method PutHandler(db: Db, params: Params, body: map<string, JsValue>) returns (r: Response<Showtime>)
    modifies db`showtimes
    ensures (r, db.showtimes) == Put(old(db.showtimes), db.movies, params, body)
  {
    var n := IdParam(Param(params, "id"));
    if n.None? {
      return Err(400, "INVALID_ID", "Valid ID is required");
    }
    var existing := Lookup(db.showtimes, ShowtimeId, n.value);
    if existing.None? {
      return Err(404, "SHOWTIME_NOT_FOUND", "Showtime not found");
    }
    var updates := Patch(None, None, None, None, None, None, None);
    var movieId := Field(body, "movieId");
    if !movieId.Undefined? {
      var m := ParseIntValue(movieId);
      if m.None? || Lookup(db.movies, MovieId, m.value).None? {
        return Err(400, "MOVIE_NOT_FOUND", "Movie not found with provided movieId");
      }
      updates := updates.(movieId := m);
    }
    var showDate := Field(body, "showDate");
    if !showDate.Undefined? {
      if !showDate.Str? { return InternalError(TrimNotAFunction); }
      updates := updates.(showDate := Some(Trim(showDate.s)));
    }
    var showTime := Field(body, "showTime");
    if !showTime.Undefined? {
      if !showTime.Str? { return InternalError(TrimNotAFunction); }
      updates := updates.(showTime := Some(Trim(showTime.s)));
    }
    updates := updates.(screenNumber := IntUpdate(Field(body, "screenNumber")));
    updates := updates.(totalSeats := IntUpdate(Field(body, "totalSeats")));
    updates := updates.(availableSeats := IntUpdate(Field(body, "availableSeats")));
    updates := updates.(price := IntUpdate(Field(body, "price")));
    if EmptyPatch(updates) {
      return InternalError(NoValuesToSet);
    }
    if HasNull(updates) {
      return InternalError(NotNullFailed);
    }
    var row := Apply(existing.value, updates);
    db.showtimes := Replace(db.showtimes, ShowtimeId, n.value, row);
    r := Ok(200, row);
  }

  method DeleteHandler(db: Db, params: Params) returns (r: Response<Deletion<Showtime>>)
    modifies db`showtimes
    ensures (r, db.showtimes) == Delete(old(db.showtimes), params)
  {
    var n := IdParam(Param(params, "id"));
    if n.None? {
      return Err(400, "INVALID_ID", "Valid ID is required");
    }
    var existing := Lookup(db.showtimes, ShowtimeId, n.value);
    if existing.None? {
      return Err(404, "SHOWTIME_NOT_FOUND", "Showtime not found");
    }
    db.showtimes := Remove(db.showtimes, ShowtimeId, n.value);
    r := Ok(200, Deletion("Showtime deleted successfully", existing.value));
  }
}
