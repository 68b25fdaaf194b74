/**
 * `/api/seats` (`src/app/api/seats/route.js`): GET one seat by id or the seats of a showtime in
 * row/seat-number order, and PUT that changes only a seat's booking flag and booking id.
 */
module SeatsApi {
  import opened JsLib
  import opened Schema
  import opened Sorting
  import opened Store

  function SeatRow(s: Seat): string { s.row }
  function SeatNumber(s: Seat): string { s.seatNumber }

  /** `ORDER BY row ASC, seat_number ASC`. */
  function SeatOrder(): (Seat, Seat) -> bool {
    ThenBy(AscStr(SeatRow), AscStr(SeatNumber))
  }

  lemma SeatOrderTotal()
    ensures TotalPreorder(SeatOrder())
  {
    AscStrTotal(SeatRow);
    AscStrTotal(SeatNumber);
    ThenByTotal(AscStr(SeatRow), AscStr(SeatNumber));
  }

  function OfShowtime(seats: seq<Seat>, showtimeId: int): seq<Seat> {
    Filter(seats, (s: Seat) => s.showtimeId == showtimeId)
  }

  /** GET: `?id=` wins over `?showtime_id=`; each has its own 400, and an unknown id is a 404. */
  function Get(seats: Table<Seat>, params: Params): Response<Listing<Seat, Seat>> {
    var id := Param(params, "id");
    var showtimeId := Param(params, "showtime_id");
    if Given(id) then
      match ParseInt(id.value)
      case None => Err(400, "INVALID_ID", "Valid ID is required")
      case Some(n) =>
        match Lookup(seats, SeatId, n)
        case None => Err(404, "SEAT_NOT_FOUND", "Seat not found")
        case Some(s) => Ok(200, One(s))
    else if !Given(showtimeId) then Err(400, "SHOWTIME_ID_REQUIRED", "Showtime ID is required")
    else
      match ParseInt(showtimeId.value)
      case None => Err(400, "INVALID_SHOWTIME_ID", "Valid showtime ID is required")
      case Some(n) => Ok(200, Many(SortBy(OfShowtime(seats.rows, n), SeatOrder())))
  }

  /** GET by id: 400 for an id `parseInt` cannot read, else the seat with that id or a 404. */
  lemma GetById(seats: Table<Seat>, params: Params)
    requires Given(Param(params, "id"))
    ensures var r := Get(seats, params);
      var p := ParseInt(params["id"]);
      && (p.None? <==> r == Err(400, "INVALID_ID", "Valid ID is required"))
      && (p.Some? && Lookup(seats, SeatId, p.value).None? <==> r.Err? && r.status == 404)
      && (r.Ok? ==> r.body.One? && r.body.row in seats.rows && r.body.row.id == p.value)
  {
  }

  /** GET without an id: the showtime id is required and must parse. */
  lemma GetListErrors(seats: Table<Seat>, params: Params)
    requires !Given(Param(params, "id"))
    ensures !Given(Param(params, "showtime_id")) ==>
      Get(seats, params) == Err(400, "SHOWTIME_ID_REQUIRED", "Showtime ID is required")
    ensures Given(Param(params, "showtime_id")) && ParseInt(params["showtime_id"]).None? ==>
      Get(seats, params) == Err(400, "INVALID_SHOWTIME_ID", "Valid showtime ID is required")
  {
  }

  /**
   * The seat list of a showtime: exactly that showtime's seats (as a multiset), ordered by row
   * and, within a row, by seat number.
   */
  lemma GetListSpec(seats: Table<Seat>, params: Params, n: int)
    requires !Given(Param(params, "id")) && Given(Param(params, "showtime_id"))
    requires ParseInt(params["showtime_id"]) == Some(n)
    ensures Get(seats, params).Ok? && Get(seats, params).body.Many?
    ensures var rows := Get(seats, params).body.rows;
      && multiset(rows) == multiset(OfShowtime(seats.rows, n))
      && (forall i :: 0 <= i < |rows| ==> rows[i].showtimeId == n)
      && (forall s :: s in seats.rows && s.showtimeId == n ==> s in rows)
      && Sorted(rows, SeatOrder())
  {
    var rows := Get(seats, params).body.rows;
    var mine := OfShowtime(seats.rows, n);
    SeatOrderTotal();
    SortBySorted(mine, SeatOrder());
    forall i | 0 <= i < |rows| ensures rows[i].showtimeId == n {
      assert rows[i] in multiset(mine);
    }
    forall s | s in seats.rows && s.showtimeId == n ensures s in rows {
      var k :| 0 <= k < |seats.rows| && seats.rows[k] == s;
      assert s in multiset(mine);
    }
  }

  // ---------------------------------------------------------------------------
  // PUT

  /** `a ?? b`. */
  function Coalesce(a: JsValue, b: JsValue): (r: JsValue)
    ensures !a.Undefined? && !a.Null? ==> r == a
    ensures a.Undefined? || a.Null? ==> r == b
  {
    if a.Undefined? || a.Null? then b else a
  }

  /** The booking id values this model stores: a JSON number or null. */
  predicate BookingIdTyped(body: map<string, JsValue>) {
    (Field(body, "bookingId").Num? || Field(body, "bookingId").Null? || Field(body, "bookingId").Undefined?) &&
    (Field(body, "booking_id").Num? || Field(body, "booking_id").Null? || Field(body, "booking_id").Undefined?)
  }

  /** The value written to `isBooked` (`Undefined` when the column is left alone). */
  function IsBookedValue(body: map<string, JsValue>): JsValue {
    Coalesce(Field(body, "isBooked"), Field(body, "is_booked"))
  }

  function BookingIdValue(body: map<string, JsValue>): JsValue {
    Coalesce(Field(body, "bookingId"), Field(body, "booking_id"))
  }

  /**
   * The row after `UPDATE seats SET …` with the allowed fields: a boolean column stores the
   * value's truthiness; a null `isBooked` breaks NOT NULL; a set with no value throws.
   */
  function ApplyChanges(s: Seat, isBooked: JsValue, bookingId: JsValue): (r: Result<Seat>)
    requires bookingId.Num? || bookingId.Null? || bookingId.Undefined?
  {
    if isBooked.Undefined? && bookingId.Undefined? then Failure(NoValuesToSet)
    else if isBooked.Null? then Failure(NotNullFailed)
    else Success(s.(
      isBooked := if isBooked.Undefined? then s.isBooked else Truthy(isBooked),
      bookingId := if bookingId.Undefined? then s.bookingId
                   else if bookingId.Null? then None else Some(bookingId.n)))
  }

  /** PUT as a function of the seats table: the response and the table afterwards. */
  function Put(seats: Table<Seat>, params: Params, body: map<string, JsValue>): (Response<Seat>, Table<Seat>)
    requires BookingIdTyped(body)
  {
    var id := Param(params, "id");
    if !Given(id) then (Err(400, "ID_REQUIRED", "ID is required"), seats)
    else if ParseInt(id.value).None? then (Err(400, "INVALID_ID", "Valid ID is required"), seats)
    else
      var n := ParseInt(id.value).value;
      match Lookup(seats, SeatId, n)
      case None => (Err(404, "SEAT_NOT_FOUND", "Seat not found"), seats)
      case Some(s) =>
        match ApplyChanges(s, IsBookedValue(body), BookingIdValue(body))
        case Failure(why) => (InternalError(why), seats)
        case Success(s') => (Ok(200, s'), Replace(seats, SeatId, n, s'))
  }

  /** PUT only ever changes `isBooked` and `bookingId` of the one seat it names. */
  lemma PutChangesOnlyBookingFields(seats: Table<Seat>, params: Params, body: map<string, JsValue>)
    requires BookingIdTyped(body)
    ensures var (r, after) := Put(seats, params, body);
      && (r.Err? ==> after == seats)
      && (r.Ok? ==> exists n :: (Lookup(seats, SeatId, n).Some?
            && r.body == Lookup(seats, SeatId, n).value.(isBooked := r.body.isBooked, bookingId := r.body.bookingId)
            && after == Replace(seats, SeatId, n, r.body)))
  {
    var (r, after) := Put(seats, params, body);
    if r.Ok? {
      var n := ParseInt(params["id"]).value;
      assert Lookup(seats, SeatId, n).Some?;
    }
  }

  /** Rows other than the target are untouched by an update. */
  lemma ReplaceKeepsOthers(seats: Table<Seat>, n: int, s: Seat, i: int)
    requires 0 <= i < |seats.rows| && seats.rows[i].id != n
    ensures Replace(seats, SeatId, n, s).rows[i] == seats.rows[i]
  {
  }

  /** The camelCase key wins unless its value is null or absent, then the snake_case one is used. */
  lemma CamelCaseWins(body: map<string, JsValue>, v: JsValue)
    requires Field(body, "isBooked") == v && !v.Undefined? && !v.Null?
    ensures IsBookedValue(body) == v
  {
  }

  /** The 400s come first, in the order: missing id, unreadable id; then an unknown seat is a 404. */
  lemma PutErrors(seats: Table<Seat>, params: Params, body: map<string, JsValue>)
    requires BookingIdTyped(body)
    ensures !Given(Param(params, "id")) ==> Put(seats, params, body).0 == Err(400, "ID_REQUIRED", "ID is required")
    ensures Given(Param(params, "id")) && ParseInt(params["id"]).None? ==>
      Put(seats, params, body).0 == Err(400, "INVALID_ID", "Valid ID is required")
    ensures (Given(Param(params, "id")) && ParseInt(params["id"]).Some?
             && Lookup(seats, SeatId, ParseInt(params["id"]).value).None?) ==>
      Put(seats, params, body) == (Err(404, "SEAT_NOT_FOUND", "Seat not found"), seats)
  {
  }

  /**
   * The handler as the route runs it: validate the id, collect the allowed fields one key at a
   * time, check that the seat exists, then update the row.
   */
  method PutHandler(db: Db, params: Params, body: map<string, JsValue>) returns (r: Response<Seat>)
    requires BookingIdTyped(body)
    modifies db
    ensures (r, db.seats) == Put(old(db.seats), params, body)
    ensures db.users == old(db.users) && db.movies == old(db.movies) && db.showtimes == old(db.showtimes)
    ensures db.foodItems == old(db.foodItems) && db.bookings == old(db.bookings)
    ensures db.bookingSeats == old(db.bookingSeats) && db.bookingFood == old(db.bookingFood)
  {
    var id := Param(params, "id");
    if !Given(id) {
      return Err(400, "ID_REQUIRED", "ID is required");
    }
    var n := ParseInt(id.value);
    if n.None? {
      return Err(400, "INVALID_ID", "Valid ID is required");
    }
    var isBooked, bookingId := Undefined, Undefined;
    if "isBooked" in body || "is_booked" in body {
      isBooked := Coalesce(Field(body, "isBooked"), Field(body, "is_booked"));
    }
    if "bookingId" in body || "booking_id" in body {
      bookingId := Coalesce(Field(body, "bookingId"), Field(body, "booking_id"));
    }
    var existing := Lookup(db.seats, SeatId, n.value);
    if existing.None? {
      return Err(404, "SEAT_NOT_FOUND", "Seat not found");
    }
    var updated := ApplyChanges(existing.value, isBooked, bookingId);
    if updated.Failure? {
      return InternalError(updated.reason);
    }
    db.seats := Replace(db.seats, SeatId, n.value, updated.value);
    r := Ok(200, updated.value);
  }
}
