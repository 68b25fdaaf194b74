/**
 * The movie page of the router-based screens (`src/pages/MovieDetailsPage.jsx`): the movie's
 * showtimes grouped by date and shown date by date in ascending order, the rule that disables
 * a sold-out showtime, and where the booking button leads. Showtimes come from a mock JSON
 * server whose records may use camelCase or snake_case field names, so each field is a
 * JavaScript value that may be absent. The duration label is `HomePage.FormatDuration`.
 */
module MovieDetailsPage {
  import opened JsLib
  import opened Sorting
  import opened Grouping

  /** A showtime record as the page reads it; `Undefined` stands for a field the record lacks. */
  datatype ShowtimeJson = ShowtimeJson(
    id: JsValue, showDate: JsValue, show_date: JsValue, availableSeats: JsValue, available_seats: JsValue)

  /** JavaScript's `a || b`: `a` when it is truthy, else `b`. */
  function Or(a: JsValue, b: JsValue): (r: JsValue)
    ensures Truthy(a) ==> r == a
    ensures !Truthy(a) ==> r == b
  {
    if Truthy(a) then a else b
  }

  /** JavaScript's `a ?? b`: `a` unless it is `null` or `undefined`. */
  function Nullish(a: JsValue, b: JsValue): (r: JsValue)
    ensures !(a.Undefined? || a.Null?) ==> r == a
    ensures a.Undefined? || a.Null? ==> r == b
  {
    if a.Undefined? || a.Null? then b else a
  }

  /** The group key `showtime.showDate || showtime.show_date`, as an object key (a string). */
  function DateKey(s: ShowtimeJson): string {
    ValueToString(Or(s.showDate, s.show_date))
  }

  /**
   * `groupShowtimesByDate` followed by `Object.keys(...).sort()`: one pass that starts a list
   * for a date seen for the first time and pushes onto it, then the dates in ascending order.
   */
  method GroupShowtimesByDate(showtimes: seq<ShowtimeJson>) returns (grouped: map<string, seq<ShowtimeJson>>, dates: seq<string>)
    ensures multiset(dates) == multiset(DistinctKeys(showtimes, DateKey))
    ensures Sorted(dates, AscStr((k: string) => k))
    ensures forall d :: d in grouped <==> d in dates
    ensures forall d :: d in grouped ==> grouped[d] == Keyed(showtimes, DateKey, d)
  {
    var order;
    grouped, order := GroupBy(showtimes, DateKey);
    dates := SortedStrings(order);
    assert forall d :: d in dates <==> d in order by {
      assert forall d :: d in dates <==> d in multiset(order);
    }
  }

  /**
   * Each showtime lies in the group of its date and in no other, in its original order among
   * the showtimes of that date; a date with no showtime has no group; and the group sizes add
   * up to the number of showtimes. The dates, being distinct, are listed once each.
   */
  lemma DateGroupsSpec(showtimes: seq<ShowtimeJson>, s: ShowtimeJson, d: string)
    ensures s in Keyed(showtimes, DateKey, d) <==> s in showtimes && DateKey(s) == d
    ensures Keyed(showtimes, DateKey, d) == Filter(showtimes, (x: ShowtimeJson) => DateKey(x) == d)
    ensures d !in DistinctKeys(showtimes, DateKey) ==> Keyed(showtimes, DateKey, d) == []
    ensures SumOf(DistinctKeys(showtimes, DateKey), k => |Keyed(showtimes, DateKey, k)|) == |showtimes|
    ensures NoDuplicates(DistinctKeys(showtimes, DateKey))
  {
    KeyedMember(showtimes, DateKey, d, s);
    KeyedIsFilter(showtimes, DateKey, d);
    if d !in DistinctKeys(showtimes, DateKey) {
      KeyedAbsent(showtimes, DateKey, d);
    }
    GroupSizesSum(showtimes, DateKey);
  }

  /** A camelCase date wins over a snake_case one; the snake_case one counts when the other is empty or absent. */
  lemma DateKeyFallback(s: ShowtimeJson)
    ensures s.showDate.Str? && s.showDate.s != "" ==> DateKey(s) == s.showDate.s
    ensures s.showDate.Undefined? && s.show_date.Str? ==> DateKey(s) == s.show_date.s
  {
  }

  // ---------------------------------------------------------------------------
  // The sold-out rule

  /** As written: `(showtime.availableSeats || showtime.available_seats) === 0`. */
  predicate DisabledAsWritten(s: ShowtimeJson) {
    Or(s.availableSeats, s.available_seats) == Num(0)
  }

  /** The seats left, read from the camelCase field when it is present, else the snake_case one. */
  function SeatsLeft(s: ShowtimeJson): JsValue {
    Nullish(s.availableSeats, s.available_seats)
  }

  /** The rule the model uses: the showtime is disabled when it has no seats left. */
  predicate Disabled(s: ShowtimeJson) {
    SeatsLeft(s) == Num(0)
  }

  /**
   * As written, a camelCase record with `availableSeats: 0` (the shape the mock data uses)
   * and no snake_case field is not disabled: `0 || undefined` is `undefined`, which is not 0.
   */
  lemma DisabledAsWrittenMissesSoldOut(s: ShowtimeJson)
    requires s.availableSeats == Num(0) && s.available_seats.Undefined?
    ensures !DisabledAsWritten(s) && Disabled(s)
  {
  }

  /**
   * With the fix a showtime whose present seat count is 0 is disabled and one with seats left
   * is not, whichever naming its record uses; where the camelCase count is anything but 0 the
   * fix agrees with the code as written.
   */
  lemma DisabledSpec(s: ShowtimeJson)
    ensures s.availableSeats == Num(0) ==> Disabled(s)
    ensures s.availableSeats.Undefined? && s.available_seats == Num(0) ==> Disabled(s)
    ensures s.availableSeats.Num? && s.availableSeats.n != 0 ==> !Disabled(s)
    ensures s.availableSeats != Num(0) && !s.availableSeats.Null? && s.availableSeats != Str("") && s.availableSeats != Bool(false)
      ==> (Disabled(s) <==> DisabledAsWritten(s))
  {
  }

  // ---------------------------------------------------------------------------
  // The booking button

  /** Where `handleBooking` navigates. */
  function BookingTarget(hasUser: bool, movieId: string, showtime: ShowtimeJson): string {
    if !hasUser then "/login?redirect=/movies/" + movieId
    else "/booking/" + ValueToString(showtime.id)
  }

  /**
   * Without a user the button leads to the login page with a return path to this movie;
   * with one, to the booking page of that showtime, whose numeric id reads back from the path.
   */
  lemma BookingTargetSpec(hasUser: bool, movieId: string, showtime: ShowtimeJson)
    ensures !hasUser ==> var t := BookingTarget(hasUser, movieId, showtime);
      |t| >= 24 && t[..24] == "/login?redirect=/movies/" && t[24..] == movieId
    ensures hasUser ==> var t := BookingTarget(hasUser, movieId, showtime);
      |t| >= 9 && t[..9] == "/booking/" && t[9..] == ValueToString(showtime.id)
    ensures hasUser && showtime.id.Num? ==> ParseInt(BookingTarget(hasUser, movieId, showtime)[9..]) == Some(showtime.id.n)
  {
    var t := BookingTarget(hasUser, movieId, showtime);
    if hasUser {
      var prefix := "/booking/";
      assert |prefix| == 9 && t == prefix + ValueToString(showtime.id);
      assert t[9..] == ValueToString(showtime.id);
      if showtime.id.Num? {
        ParseIntOfIntToString(showtime.id.n);
      }
    } else {
      var prefix := "/login?redirect=/movies/";
      assert |prefix| == 24 && t == prefix + movieId;
    }
  }
}
