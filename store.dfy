/**
 * The in-memory stand-in for the SQLite database behind the API routes, the HTTP response
 * shape, the query-string helpers the routes share, and SQL `LIMIT`/`OFFSET`.
 *
 * A table is its rows in insertion order plus the next AUTOINCREMENT id. A JSON response is
 * either a status with a body or a status with the error `code` and message the routes send.
 */
module Store {
  import opened JsLib
  import opened Schema

  datatype Table<R> = Table(rows: seq<R>, nextId: int)

  /** Row ids are distinct and below the next id to hand out. */
  predicate ValidTable<R>(t: Table<R>, idOf: R -> int) {
    (forall i, j :: 0 <= i < j < |t.rows| ==> idOf(t.rows[i]) != idOf(t.rows[j])) &&
    (forall i :: 0 <= i < |t.rows| ==> idOf(t.rows[i]) < t.nextId)
  }

  /** `SELECT … WHERE id = ? LIMIT 1`. */
  function Lookup<R>(t: Table<R>, idOf: R -> int, id: int): (r: Option<R>)
    ensures r.Some? ==> r.value in t.rows && idOf(r.value) == id
    ensures r.None? ==> forall i :: 0 <= i < |t.rows| ==> idOf(t.rows[i]) != id
  {
    Find(t.rows, x => idOf(x) == id)
  }

  /** `INSERT`: the row is appended and the id counter moves past it. */
  function Insert<R>(t: Table<R>, row: R): Table<R> {
    Table(t.rows + [row], t.nextId + 1)
  }

  /** `UPDATE … WHERE id = ?`: every row with that id becomes `row`. */
  function Replace<R>(t: Table<R>, idOf: R -> int, id: int, row: R): (r: Table<R>)
    ensures |r.rows| == |t.rows| && r.nextId == t.nextId
    ensures forall i :: 0 <= i < |t.rows| ==> r.rows[i] == if idOf(t.rows[i]) == id then row else t.rows[i]
  {
    Table(seq(|t.rows|, i requires 0 <= i < |t.rows| => if idOf(t.rows[i]) == id then row else t.rows[i]), t.nextId)
  }

  /** `DELETE … WHERE id = ?`. */
  function Remove<R>(t: Table<R>, idOf: R -> int, id: int): (r: Table<R>)
    ensures r.nextId == t.nextId
  {
    Table(Filter(t.rows, x => idOf(x) != id), t.nextId)
  }

  lemma InsertValid<R>(t: Table<R>, idOf: R -> int, row: R)
    requires ValidTable(t, idOf) && idOf(row) == t.nextId
    ensures ValidTable(Insert(t, row), idOf)
    ensures Lookup(Insert(t, row), idOf, idOf(row)) == Some(row)
  {
    var rows := t.rows + [row];
    assert forall i :: 0 <= i < |t.rows| ==> rows[i] == t.rows[i];
    var r := Lookup(Insert(t, row), idOf, idOf(row));
    assert rows[|t.rows|] == row;
  }

  lemma ReplaceValid<R>(t: Table<R>, idOf: R -> int, id: int, row: R)
    requires ValidTable(t, idOf) && idOf(row) == id
    ensures ValidTable(Replace(t, idOf, id, row), idOf)
  {
  }

  /** A deleted row is gone, every other row is kept in order, and ids stay valid. */
  lemma RemoveSpec<R>(t: Table<R>, idOf: R -> int, id: int)
    requires ValidTable(t, idOf)
    ensures ValidTable(Remove(t, idOf, id), idOf)
    ensures Lookup(Remove(t, idOf, id), idOf, id).None?
    ensures forall x :: x in t.rows && idOf(x) != id ==> x in Remove(t, idOf, id).rows
    ensures Lookup(t, idOf, id).Some? ==> |Remove(t, idOf, id).rows| == |t.rows| - 1
  {
    var r := Remove(t, idOf, id).rows;
    forall i, j | 0 <= i < j < |r| ensures idOf(r[i]) != idOf(r[j]) {
      RemovedDistinct(t.rows, idOf, id, i, j);
    }
    forall x | x in t.rows && idOf(x) != id ensures x in r {
      var k :| 0 <= k < |t.rows| && t.rows[k] == x;
    }
    if Lookup(t, idOf, id).Some? {
      RemoveOneLength(t.rows, idOf, id);
    }
  }

  lemma {:induction false} RemovedDistinct<R>(rows: seq<R>, idOf: R -> int, id: int, i: int, j: int)
    requires forall a, b :: 0 <= a < b < |rows| ==> idOf(rows[a]) != idOf(rows[b])
    requires 0 <= i < j < |Filter(rows, x => idOf(x) != id)|
    ensures idOf(Filter(rows, x => idOf(x) != id)[i]) != idOf(Filter(rows, x => idOf(x) != id)[j])
    decreases |rows|
  {
    var init := rows[..|rows| - 1];
    var last := rows[|rows| - 1];
    var f := Filter(init, x => idOf(x) != id);
    assert rows == init + [last];
    if j < |f| {
      RemovedDistinct(init, idOf, id, i, j);
    } else {
      assert f[i] in init;
      var k :| 0 <= k < |init| && init[k] == f[i];
      assert rows[k] == f[i] && k < |rows| - 1;
    }
  }

  /** With distinct ids, deleting an existing id removes exactly one row. */
  lemma {:induction false} RemoveOneLength<R>(rows: seq<R>, idOf: R -> int, id: int)
    requires forall a, b :: 0 <= a < b < |rows| ==> idOf(rows[a]) != idOf(rows[b])
    requires exists k :: 0 <= k < |rows| && idOf(rows[k]) == id
    ensures |Filter(rows, x => idOf(x) != id)| == |rows| - 1
    decreases |rows|
  {
    var init := rows[..|rows| - 1];
    var last := rows[|rows| - 1];
    assert rows == init + [last];
    if idOf(last) == id {
      forall k | 0 <= k < |init| ensures idOf(init[k]) != id {
        assert rows[k] == init[k];
      }
      FilterAll(init, x => idOf(x) != id);
    } else {
      var k :| 0 <= k < |rows| && idOf(rows[k]) == id;
      assert k < |init| && init[k] == rows[k];
      RemoveOneLength(init, idOf, id);
    }
  }

  // ---------------------------------------------------------------------------
  // Responses

  datatype Response<T> =
    | Ok(status: int, body: T)
    | Err(status: int, code: string, message: string)

  /** The catch-all `500` every route answers with when the database or the runtime throws. */
  function InternalError<T>(reason: string): Response<T> {
    Err(500, "", "Internal server error: " + reason)
  }

  /** A step that either gives a value or throws with a reason. */
  datatype Result<T> = Success(value: T) | Failure(reason: string)

  /** One step of a handler: it carries on with a value or stops with the response it sends. */
  datatype Step<T, R> = Next(value: T) | Stop(response: Response<R>)

  /** The reasons a write throws before reaching the table, in the words of the runtime. */
  const NoValuesToSet := "No values to set"
  const NotNullFailed := "NOT NULL constraint failed"
  const TrimNotAFunction := "trim is not a function"

  /** The body of a GET that answers either one record (`?id=`) or a list of rows. */
  datatype Listing<A, R> = One(row: A) | Many(rows: seq<R>)

  /** The body of a successful DELETE. */
  datatype Deletion<R> = Deletion(message: string, deleted: R)

  /**
   * DELETE by `?id=` as the routes write it: 400 for a missing or unreadable id, the route's
   * 404 for an unknown one, else the row is removed and returned with the route's message.
   */
  function DeleteById<R>(t: Table<R>, idOf: R -> int, params: Params, notFound: Response<Deletion<R>>, message: string)
    : (Response<Deletion<R>>, Table<R>)
  {
    match IdParam(Param(params, "id"))
    case None => (Err(400, "INVALID_ID", "Valid ID is required"), t)
    case Some(n) =>
      match Lookup(t, idOf, n)
      case None => (notFound, t)
      case Some(row) => (Ok(200, Deletion(message, row)), Remove(t, idOf, n))
  }

  /** A DELETE removes exactly the row it names and answers with it, or changes nothing. */
  lemma DeleteByIdSpec<R>(t: Table<R>, idOf: R -> int, params: Params, notFound: Response<Deletion<R>>, message: string)
    requires ValidTable(t, idOf) && notFound.Err?
    ensures var (r, after) := DeleteById(t, idOf, params, notFound, message);
      && (IdParam(Param(params, "id")).None? ==> r == Err(400, "INVALID_ID", "Valid ID is required"))
      && (r.Err? ==> after == t)
      && (r.Ok? ==>
            (&& r.body.deleted in t.rows && r.body.message == message
             && Some(idOf(r.body.deleted)) == IdParam(Param(params, "id"))
             && ValidTable(after, idOf)
             && Lookup(after, idOf, idOf(r.body.deleted)).None?
             && |after.rows| == |t.rows| - 1
             && forall x :: x in t.rows && idOf(x) != idOf(r.body.deleted) ==> x in after.rows))
  {
    var (r, after) := DeleteById(t, idOf, params, notFound, message);
    if r.Ok? {
      RemoveSpec(t, idOf, idOf(r.body.deleted));
    }
  }

  // ---------------------------------------------------------------------------
  // Text columns

  /**
   * `LIKE '%search%'`: SQLite compares ASCII letters without regard to case. `%` and `_` inside
   * the search text are not read as wildcards here.
   */
  predicate Like(value: string, search: string) {
    Contains(ToLower(value), ToLower(search))
  }

  /** `v ? v.trim() : null`: a falsy value stores null, a truthy non-string throws. */
  function OptionalText(v: JsValue): (r: Result<Option<string>>)
    ensures r.Success? ==> (r.value.None? <==> !Truthy(v))
    ensures v.Str? && v.s != "" ==> r == Success(Some(Trim(v.s)))
    ensures r.Failure? <==> Truthy(v) && !v.Str?
  {
    if !Truthy(v) then Success(None)
    else if v.Str? then Success(Some(Trim(v.s)))
    else Failure(TrimNotAFunction)
  }

  // ---------------------------------------------------------------------------
  // Query strings

  /** `searchParams.get(key)`: `None` is `null`. */
  type Params = map<string, string>

  function Param(params: Params, key: string): Option<string> {
    if key in params then Some(params[key]) else None
  }

  /** `if (p)`: present and not empty. */
  predicate Given(p: Option<string>) { p.Some? && p.value != "" }

  /** `!p || isNaN(parseInt(p))` fails; otherwise the id the route looks up. */
  function IdParam(p: Option<string>): (r: Option<int>)
    ensures r.Some? ==> Given(p) && ParseInt(p.value) == r
    ensures r.None? ==> !Given(p) || ParseInt(p.value).None?
  {
    if !Given(p) then None else ParseInt(p.value)
  }

  /** The id a client renders into `?id=` is the id the route looks up. */
  lemma IdParamOfIntToString(n: int)
    ensures IdParam(Some(IntToString(n))) == Some(n)
  {
    ParseIntOfIntToString(n);
  }

  /** `parseInt(p ?? fallback)` is a number (the routes do not guard against NaN here). */
  predicate NumericOrAbsent(p: Option<string>) {
    p.None? || ParseInt(p.value).Some?
  }

  /** `Math.min(parseInt(searchParams.get('limit') ?? '10'), 100)`, as the list routes compute it. */
  function ListLimit(p: Option<string>): (n: int)
    requires NumericOrAbsent(p)
    ensures n <= 100
    ensures p.None? ==> n == 10
  {
    var v := if p.None? then 10 else ParseInt(p.value).value;
    if v < 100 then v else 100
  }

  /** `parseInt(searchParams.get('offset') ?? '0')`. */
  function ListOffset(p: Option<string>): int
    requires NumericOrAbsent(p)
  {
    if p.None? then 0 else ParseInt(p.value).value
  }

  /**
   * The page size the list routes evidently mean: at most 100 rows and never negative, so
   * that SQLite's "negative LIMIT means no limit" rule cannot lift the cap.
   */
  function CappedLimit(p: Option<string>): (n: int)
    requires NumericOrAbsent(p)
    ensures 0 <= n <= 100
    ensures 0 <= ListLimit(p) ==> n == ListLimit(p)
  {
    var v := ListLimit(p);
    if v < 0 then 0 else v
  }

  /** Start of the `LIMIT limit OFFSET offset` window; SQLite treats a negative offset as 0. */
  function PageStart(n: nat, offset: int): (lo: nat)
    ensures lo <= n
  {
    if offset <= 0 then 0 else if offset < n then offset else n
  }

  /** End of the window; SQLite treats a negative limit as "no limit". */
  function PageEnd(n: nat, limit: int, offset: int): (hi: nat)
    ensures PageStart(n, offset) <= hi <= n
    ensures limit >= 0 ==> hi - PageStart(n, offset) <= limit
    ensures limit < 0 ==> hi == n
  {
    var lo := PageStart(n, offset);
    if limit < 0 || lo + limit >= n then n else lo + limit
  }

  function Page<R>(rows: seq<R>, limit: int, offset: int): (r: seq<R>)
    ensures limit >= 0 ==> |r| <= limit
  {
    rows[PageStart(|rows|, offset)..PageEnd(|rows|, limit, offset)]
  }

  /** Every row of a page comes from the rows it was cut from. */
  lemma PageSubset<R>(rows: seq<R>, limit: int, offset: int)
    ensures forall x :: x in Page(rows, limit, offset) ==> x in rows
  {
    var lo, hi := PageStart(|rows|, offset), PageEnd(|rows|, limit, offset);
    forall x | x in Page(rows, limit, offset) ensures x in rows {
      var k :| 0 <= k < hi - lo && rows[lo..hi][k] == x;
      assert rows[lo + k] == x;
    }
  }

  /** A page of any reordering of the rows that pass a filter holds only rows that pass it. */
  lemma PageOfFiltered<R>(rows: seq<R>, p: R -> bool, ordered: seq<R>, limit: int, offset: int)
    requires multiset(ordered) == multiset(Filter(rows, p))
    ensures forall x :: x in Page(ordered, limit, offset) ==> x in rows && p(x)
  {
    var matching := Filter(rows, p);
    PageSubset(ordered, limit, offset);
    forall x | x in Page(ordered, limit, offset) ensures x in rows && p(x) {
      assert x in multiset(ordered);
      assert x in multiset(matching);
      var k :| 0 <= k < |matching| && matching[k] == x;
    }
  }

  /** With the first page and enough room, every row is returned. */
  lemma PageAll<R>(rows: seq<R>, limit: int, offset: int)
    requires offset <= 0 && (limit < 0 || limit >= |rows|)
    ensures Page(rows, limit, offset) == rows
  {
  }

  /** A list page computed with `CappedLimit` never holds more than 100 rows. */
  lemma CappedPageAtMost100<R>(rows: seq<R>, limitParam: Option<string>, offset: int)
    requires NumericOrAbsent(limitParam)
    ensures |Page(rows, CappedLimit(limitParam), offset)| <= 100
  {
  }

  /**
   * As the routes compute it, a negative `?limit=` (for instance `-1`, see `ParseMinusOne`)
   * survives `Math.min(…, 100)`, and SQLite reads a negative LIMIT as "no limit": the first page
   * is then every row, however many there are, past the intended cap of 100.
   */
  lemma NegativeListLimitLiftsCap<R>(rows: seq<R>, p: Option<string>)
    requires p.Some? && ParseInt(p.value).Some? && ParseInt(p.value).value < 0
    ensures ListLimit(p) < 0
    ensures Page(rows, ListLimit(p), 0) == rows
  {
    PageAll(rows, ListLimit(p), 0);
  }

  lemma ParseMinusOne()
    ensures ParseInt("-1") == Some(-1)
  {
    assert DigitsValue(['1']) == 1;
    assert "-1" == ['-'] + (['1'] + []);
    ParseIntOfMinusDigitsThen(['1'], 1, [], "-1");
  }

  // ---------------------------------------------------------------------------
  // The database

  class Db {
    var users: seq<User>
    var movies: Table<Movie>
    var showtimes: Table<Showtime>
    var seats: Table<Seat>
    var foodItems: Table<FoodItem>
    var bookings: Table<Booking>
    var bookingSeats: Table<BookingSeat>
    var bookingFood: Table<BookingFood>

    ghost predicate Valid()
      reads this
    {
      EmailsUnique(users) &&
      ValidTable(movies, MovieId) && ValidTable(showtimes, ShowtimeId) &&
      ValidTable(seats, SeatId) && ValidTable(foodItems, FoodItemId) &&
      ValidTable(bookings, BookingId) && ValidTable(bookingSeats, BookingSeatId) &&
      ValidTable(bookingFood, BookingFoodId)
    }

    /** A fresh database: every table empty, every AUTOINCREMENT counter at 1. */
    constructor ()
      ensures Valid()
      ensures users == [] && movies == Table([], 1) && showtimes == Table([], 1)
      ensures seats == Table([], 1) && foodItems == Table([], 1) && bookings == Table([], 1)
      ensures bookingSeats == Table([], 1) && bookingFood == Table([], 1)
    {
      users := [];
      movies := Table([], 1);
      showtimes := Table([], 1);
      seats := Table([], 1);
      foodItems := Table([], 1);
      bookings := Table([], 1);
      bookingSeats := Table([], 1);
      bookingFood := Table([], 1);
    }
  }
}
