/**
 * The booking list of the app router (`src/app/my-bookings/page.jsx`): the session guard, the
 * per-booking join with its showtime and movie, the status badge colour, which bookings offer
 * a cancel, and the cancel handler. The showtime request made for each booking is the
 * parameter `fetchShowtime` (`None` when the request fails or throws); the bearer token, the
 * toasts and the dialog's rendering are not modelled.
 */
module MyBookingsRoute {
  import opened JsLib
  import opened Schema
  import ShowtimesApi

  /** What the guard effect does for a session state. */
  datatype SessionEffect = Wait | RedirectToLogin | FetchBookings

  function OnSession(isPending: bool, hasUser: bool): (e: SessionEffect)
    ensures e == FetchBookings <==> hasUser
    ensures e == RedirectToLogin <==> !isPending && !hasUser
    ensures e == Wait <==> isPending && !hasUser
  {
    if !isPending && !hasUser then RedirectToLogin
    else if hasUser then FetchBookings
    else Wait
  }

  // ---------------------------------------------------------------------------
  // Bookings with their details

  /** `{ ...booking, showtime, movie }`. */
  datatype BookingDetail = BookingDetail(booking: Booking, showtime: Option<Showtime>, movie: Option<Movie>)

  /** One booking's details: both null when its showtime request fails. */
  function DetailOf(booking: Booking, fetchShowtime: int -> Option<ShowtimesApi.ShowtimeWithMovie>): BookingDetail {
    match fetchShowtime(booking.showtimeId)
    case None => BookingDetail(booking, None, None)
    case Some(found) => BookingDetail(booking, Some(found.showtime), found.movie)
  }

  /** `data.map(async booking => ...)`, awaited together. */
  function Details(bookings: seq<Booking>, fetchShowtime: int -> Option<ShowtimesApi.ShowtimeWithMovie>): seq<BookingDetail> {
    seq(|bookings|, i requires 0 <= i < |bookings| => DetailOf(bookings[i], fetchShowtime))
  }

  /**
   * Every booking keeps its place and its data; a failed showtime request blanks the showtime
   * and the movie of that booking alone; a successful one attaches the showtime and its movie.
   */
  lemma DetailsSpec(bookings: seq<Booking>, fetchShowtime: int -> Option<ShowtimesApi.ShowtimeWithMovie>)
    ensures |Details(bookings, fetchShowtime)| == |bookings|
    ensures forall i :: 0 <= i < |bookings| ==> Details(bookings, fetchShowtime)[i].booking == bookings[i]
    ensures forall i :: 0 <= i < |bookings| && fetchShowtime(bookings[i].showtimeId).None? ==>
      Details(bookings, fetchShowtime)[i].showtime.None? && Details(bookings, fetchShowtime)[i].movie.None?
    ensures forall i :: 0 <= i < |bookings| && fetchShowtime(bookings[i].showtimeId).Some? ==>
      Details(bookings, fetchShowtime)[i].showtime == Some(fetchShowtime(bookings[i].showtimeId).value.showtime)
      && Details(bookings, fetchShowtime)[i].movie == fetchShowtime(bookings[i].showtimeId).value.movie
  {
  }

  /** A booking's details depend on its own showtime request only. */
  lemma DetailsIndependent(bookings: seq<Booking>, f: int -> Option<ShowtimesApi.ShowtimeWithMovie>,
                           g: int -> Option<ShowtimesApi.ShowtimeWithMovie>, i: nat)
    requires i < |bookings| && f(bookings[i].showtimeId) == g(bookings[i].showtimeId)
    ensures Details(bookings, f)[i] == Details(bookings, g)[i]
  {
  }

  // ---------------------------------------------------------------------------
  // Status badge and cancel button

  datatype StatusStyle = Green | Red | Yellow | Gray

  /** `getStatusColor(status)`: by the lower-cased status; a missing status is gray. */
  function StatusColor(status: Option<string>): StatusStyle {
    if status.None? then Gray
    else
      var s := ToLower(status.value);
      if s == "confirmed" then Green
      else if s == "cancelled" then Red
      else if s == "pending" then Yellow
      else Gray
  }

  /** Lower-casing twice is lower-casing once. */
  lemma ToLowerIdempotent(s: string)
    ensures ToLower(ToLower(s)) == ToLower(s)
  {
    var t := ToLower(s);
    assert forall i :: 0 <= i < |t| ==> ToLower(t)[i] == t[i];
  }

  /**
   * The colour ignores letter case; each of the three statuses gets its own colour, and
   * every other status, or none, is gray.
   */
  lemma StatusColorSpec(status: string)
    ensures StatusColor(Some(status)) == StatusColor(Some(ToLower(status)))
    ensures StatusColor(Some(status)) == Green <==> ToLower(status) == "confirmed"
    ensures StatusColor(Some(status)) == Red <==> ToLower(status) == "cancelled"
    ensures StatusColor(Some(status)) == Yellow <==> ToLower(status) == "pending"
    ensures StatusColor(None) == Gray
  {
    ToLowerIdempotent(status);
  }

  /** The cancel button appears only for the exact status "confirmed". */
  predicate CanCancel(status: Option<string>) {
    status == Some("confirmed")
  }

  /**
   * A cancellable booking is shown green; the converse fails for another letter case, which
   * is shown green but offers no cancel.
   */
  lemma CanCancelSpec(status: Option<string>)
    ensures CanCancel(status) ==> StatusColor(status) == Green
    ensures status.Some? && ToLower(status.value) == "confirmed" && status.value != "confirmed" ==>
      StatusColor(status) == Green && !CanCancel(status)
  {
    if CanCancel(status) {
      LowerOfLower("confirmed");
    }
  }

  lemma LowerOfLower(s: string)
    requires forall i :: 0 <= i < |s| ==> !IsUpper(s[i])
    ensures ToLower(s) == s
  {
  }

  // ---------------------------------------------------------------------------
  // Cancelling

  /** The result of `handleCancelBooking`: nothing to do, cancelled (the list is fetched again), or an error message. */
  datatype CancelOutcome = NoBooking | Cancelled | Failed(message: string)

  class Page {
    var bookingToCancel: Option<BookingDetail>
    var cancelDialogOpen: bool
    var isCancelling: bool

    constructor ()
      ensures bookingToCancel.None? && !cancelDialogOpen && !isCancelling
    {
      bookingToCancel := None;
      cancelDialogOpen := false;
      isCancelling := false;
    }

    method HandleCancelClick(booking: BookingDetail)
      modifies this
      ensures bookingToCancel == Some(booking) && cancelDialogOpen && isCancelling == old(isCancelling)
    {
      bookingToCancel := Some(booking);
      cancelDialogOpen := true;
    }

    /**
     * `handleCancelBooking`, where `ok` is whether the server accepted the cancel and
     * `serverError` the `error` text of a refusal: nothing happens without a selected
     * booking; success closes the dialog and clears the selection; a failure keeps both and
     * reports the server's message, or a default one.
     */
    method HandleCancelBooking(ok: bool, serverError: Option<string>) returns (outcome: CancelOutcome)
      modifies this
      ensures old(bookingToCancel).None? ==>
        && outcome == NoBooking
        && bookingToCancel == old(bookingToCancel) && cancelDialogOpen == old(cancelDialogOpen) && isCancelling == old(isCancelling)
      ensures old(bookingToCancel).Some? && ok ==> outcome == Cancelled && bookingToCancel.None? && !cancelDialogOpen && !isCancelling
      ensures old(bookingToCancel).Some? && !ok ==>
        && outcome == Failed(if serverError.Some? && serverError.value != "" then serverError.value else "Failed to cancel booking")
        && bookingToCancel == old(bookingToCancel) && cancelDialogOpen == old(cancelDialogOpen) && !isCancelling
    {
      if bookingToCancel.None? {
        return NoBooking;
      }
      isCancelling := true;
      if ok {
        cancelDialogOpen := false;
        bookingToCancel := None;
        outcome := Cancelled;
      } else {
        outcome := Failed(if serverError.Some? && serverError.value != "" then serverError.value else "Failed to cancel booking");
      }
      isCancelling := false;
    }

    /** The dialog's "Keep Booking" button or dismissal closes it; the selection stays. */
    method CloseDialog()
      modifies this
      ensures !cancelDialogOpen && bookingToCancel == old(bookingToCancel) && isCancelling == old(isCancelling)
    {
      cancelDialogOpen := false;
    }
  }
}
