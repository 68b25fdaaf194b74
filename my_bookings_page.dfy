/**
 * The booking list of the router-based screens (`src/pages/MyBookingsPage.jsx`): the user's
 * bookings newest first, each joined to its movie and showtime, marked upcoming or past, with
 * a cancel action for upcoming ones. Records come from a mock JSON server whose ids may be
 * numbers or strings. `new Date(text)` is the parameter `parseDate` (`None` for an invalid
 * date) and the current time is the parameter `now`, both in milliseconds.
 */
module MyBookingsPage {
  import opened JsLib
  import opened Sorting

  datatype BookingJson = BookingJson(id: JsValue, movieId: JsValue, showtimeId: JsValue, bookingDate: string)
  datatype MovieJson = MovieJson(id: JsValue, title: string)
  datatype ShowtimeJson = ShowtimeJson(id: JsValue, showDate: JsValue, showTime: JsValue)

  /** What the page does on load: without a user it only redirects; with one it fetches that user's bookings. */
  datatype LoadEffect = RedirectToLogin(path: string) | FetchBookings(userId: string)

  function OnLoad(user: Option<string>): (e: LoadEffect)
    ensures user.None? <==> e == RedirectToLogin("/login?redirect=/my-bookings")
    ensures user.Some? ==> e == FetchBookings(user.value)
  {
    if user.None? then RedirectToLogin("/login?redirect=/my-bookings") else FetchBookings(user.value)
  }

  // ---------------------------------------------------------------------------
  // Newest first

  /** `new Date(booking.bookingDate)`, for a booking whose date is valid. */
  function BookingTime(parseDate: string -> Option<int>): BookingJson -> int {
    (b: BookingJson) => match parseDate(b.bookingDate) case Some(t) => t case None => 0
  }

  predicate ValidDates(bookings: seq<BookingJson>, parseDate: string -> Option<int>) {
    forall i :: 0 <= i < |bookings| ==> parseDate(bookings[i].bookingDate).Some?
  }

  /** `bookingsData.sort((a, b) => new Date(b.bookingDate) - new Date(a.bookingDate))`. */
  function NewestFirst(bookings: seq<BookingJson>, parseDate: string -> Option<int>): seq<BookingJson>
    requires ValidDates(bookings, parseDate)
  {
    SortBy(bookings, DescInt(BookingTime(parseDate)))
  }

  /** The sorted list holds the same bookings, each as often, with later booking dates first. */
  lemma NewestFirstSpec(bookings: seq<BookingJson>, parseDate: string -> Option<int>)
    requires ValidDates(bookings, parseDate)
    ensures multiset(NewestFirst(bookings, parseDate)) == multiset(bookings)
    ensures ValidDates(NewestFirst(bookings, parseDate), parseDate)
    ensures var r := NewestFirst(bookings, parseDate);
      forall i, j :: 0 <= i < j < |r| ==> parseDate(r[j].bookingDate).value <= parseDate(r[i].bookingDate).value
  {
    var key := BookingTime(parseDate);
    DescIntTotal(key);
    SortBySorted(bookings, DescInt(key));
    var r := NewestFirst(bookings, parseDate);
    forall i | 0 <= i < |r| ensures parseDate(r[i].bookingDate).Some? {
      assert r[i] in multiset(bookings);
    }
    forall i, j | 0 <= i < j < |r| ensures parseDate(r[j].bookingDate).value <= parseDate(r[i].bookingDate).value {
      assert r[i] in multiset(bookings) && r[j] in multiset(bookings);
      assert DescInt(key)(r[i], r[j]);
    }
  }

  // ---------------------------------------------------------------------------
  // Joining to movies and showtimes

  /**
   * `getMovie` / `getShowtime`: the first record whose id is `String(id)`, or failing that the
   * first whose id is `id` itself.
   */
  function Lookup<T>(records: seq<T>, idOf: T -> JsValue, id: JsValue): Option<T> {
    match Find(records, (r: T) => idOf(r) == Str(ValueToString(id)))
    case Some(r) => Some(r)
    case None => Find(records, (r: T) => idOf(r) == id)
  }

  /**
   * A record whose id is the id's string form is found first; otherwise one with the id
   * itself; the result always has one of the two ids, and nothing is found only when no
   * record has either.
   */
  lemma LookupSpec<T>(records: seq<T>, idOf: T -> JsValue, id: JsValue)
    ensures Lookup(records, idOf, id).Some? ==>
      Lookup(records, idOf, id).value in records
      && (idOf(Lookup(records, idOf, id).value) == Str(ValueToString(id)) || idOf(Lookup(records, idOf, id).value) == id)
    ensures (exists i :: 0 <= i < |records| && idOf(records[i]) == Str(ValueToString(id))) ==>
      idOf(Lookup(records, idOf, id).value) == Str(ValueToString(id))
    ensures Lookup(records, idOf, id).None? <==>
      forall i :: 0 <= i < |records| ==> idOf(records[i]) != Str(ValueToString(id)) && idOf(records[i]) != id
    ensures (forall i :: 0 <= i < |records| ==> idOf(records[i]) != Str(ValueToString(id))) && (exists i :: 0 <= i < |records| && idOf(records[i]) == id)
      ==> Lookup(records, idOf, id).Some? && idOf(Lookup(records, idOf, id).value) == id
  {
    var p := (r: T) => idOf(r) == Str(ValueToString(id));
    var q := (r: T) => idOf(r) == id;
    assert forall i :: 0 <= i < |records| ==> (p(records[i]) <==> idOf(records[i]) == Str(ValueToString(id)));
    assert forall i :: 0 <= i < |records| ==> (q(records[i]) <==> idOf(records[i]) == id);
  }

  /** A numeric id finds a record stored with the id as a string (the mock data's shape). */
  lemma LookupNumericId<T>(records: seq<T>, idOf: T -> JsValue, n: int, k: nat)
    requires k < |records| && idOf(records[k]) == Str(IntToString(n))
    ensures Lookup(records, idOf, Num(n)).Some?
    ensures idOf(Lookup(records, idOf, Num(n)).value) == Str(IntToString(n))
  {
    LookupSpec(records, idOf, Num(n));
  }

  // ---------------------------------------------------------------------------
  // Upcoming or past

  /** `getShowDateTime`: without a date or a time it is "now"; otherwise `new Date(date + "T" + time)`. */
  function ShowDateTime(showDate: JsValue, showTime: JsValue, parseDate: string -> Option<int>, now: int): Option<int> {
    if !Truthy(showDate) || !Truthy(showTime) then Some(now)
    else parseDate(ValueToString(showDate) + "T" + ValueToString(showTime))
  }

  /**
   * `isUpcoming`: the show's date and time when the showtime is found, else the booking date,
   * is later than now; an invalid date is never later.
   */
  predicate IsUpcoming(booking: BookingJson, showtime: Option<ShowtimeJson>, parseDate: string -> Option<int>, now: int) {
    var when := if showtime.Some? then ShowDateTime(showtime.value.showDate, showtime.value.showTime, parseDate, now)
                else parseDate(booking.bookingDate);
    when.Some? && when.value > now
  }

  /**
   * The cancel button (shown only for upcoming bookings) never appears for a showtime missing
   * its date or time, nor for an invalid date, and appears exactly when the show is later than now.
   */
  lemma IsUpcomingSpec(booking: BookingJson, showtime: Option<ShowtimeJson>, parseDate: string -> Option<int>, now: int)
    ensures showtime.Some? && (!Truthy(showtime.value.showDate) || !Truthy(showtime.value.showTime)) ==> !IsUpcoming(booking, showtime, parseDate, now)
    ensures showtime.None? && parseDate(booking.bookingDate).None? ==> !IsUpcoming(booking, showtime, parseDate, now)
    ensures showtime.None? && parseDate(booking.bookingDate).Some? ==>
      (IsUpcoming(booking, showtime, parseDate, now) <==> parseDate(booking.bookingDate).value > now)
  {
  }

  // ---------------------------------------------------------------------------
  // The page

  class Page {
    var bookings: seq<BookingJson>
    var bookingToCancel: JsValue

    constructor (loaded: seq<BookingJson>)
      ensures bookings == loaded && bookingToCancel == Null
    {
      bookings := loaded;
      bookingToCancel := Null;
    }

    /** `handleCancelClick`. */
    method HandleCancelClick(bookingId: JsValue)
      modifies this
      ensures bookingToCancel == bookingId && bookings == old(bookings)
    {
      bookingToCancel := bookingId;
    }

    /**
     * `confirmCancel`, where `deleted` is whether the server accepted the DELETE: nothing happens
     * without a pending booking; otherwise the bookings with that id go on success, the list
     * stays on failure, and the pending id is cleared either way.
     */
    method ConfirmCancel(deleted: bool)
      modifies this
      ensures !Truthy(old(bookingToCancel)) ==> bookings == old(bookings) && bookingToCancel == old(bookingToCancel)
      ensures Truthy(old(bookingToCancel)) ==> bookingToCancel == Null
      ensures Truthy(old(bookingToCancel)) && deleted ==>
        bookings == Filter(old(bookings), (b: BookingJson) => b.id != old(bookingToCancel))
      ensures Truthy(old(bookingToCancel)) && !deleted ==> bookings == old(bookings)
    {
      if !Truthy(bookingToCancel) {
        return;
      }
      if deleted {
        var id := bookingToCancel;
        bookings := Filter(bookings, (b: BookingJson) => b.id != id);
      }
      bookingToCancel := Null;
    }
  }

  /** A successful cancel removes exactly the bookings with that id and keeps the rest in order. */
  lemma CancelledSpec(bookings: seq<BookingJson>, id: JsValue)
    ensures forall b :: b in Filter(bookings, (b: BookingJson) => b.id != id) <==> b in bookings && b.id != id
    ensures (forall i :: 0 <= i < |bookings| ==> bookings[i].id != id) ==> Filter(bookings, (b: BookingJson) => b.id != id) == bookings
  {
    var q := (b: BookingJson) => b.id != id;
    forall b | b in bookings && b.id != id ensures b in Filter(bookings, q) {
      var i :| 0 <= i < |bookings| && bookings[i] == b;
    }
    if forall i :: 0 <= i < |bookings| ==> bookings[i].id != id {
      FilterAll(bookings, q);
    }
  }
}
