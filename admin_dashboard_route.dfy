/**
 * The admin dashboard of the app router (`src/app/page.jsx`): the session guard, and the
 * statistics read from the movie, showtime and booking lists. Each list arrives as the JSON
 * body its route sends: an array of rows, or an error object. The bearer token, the toasts
 * and the rendering are not modelled.
 */
module AdminDashboardRoute {
  import opened JsLib
  import opened Schema
  import opened Store
  import BookingsAllApi

  // ---------------------------------------------------------------------------
  // The session guard

  /** The signed-in user as the session reports it; `role` is `None` when the session has none. */
  datatype SessionUser = SessionUser(role: Option<string>)

  /** What the guard effect does: nothing yet, send to the login page, refuse access, or load the statistics. */
  datatype GuardEffect = Wait | RedirectToLogin | DenyAccess | FetchStats

  predicate IsAdmin(user: Option<SessionUser>) {
    user.Some? && user.value.role == Some("admin")
  }

  /**
   * The guard as written: the login redirect waits for the session, but the role check does
   * not, so while the session is still loading (no user yet) the page refuses access and
   * sends the visitor home.
   */
  function OnSessionAsWritten(isPending: bool, user: Option<SessionUser>): GuardEffect {
    if !isPending && user.None? then RedirectToLogin
    else if !IsAdmin(user) then DenyAccess
    else FetchStats
  }

  /** The guard the page evidently means: it decides nothing until the session has loaded. */
  function OnSession(isPending: bool, user: Option<SessionUser>): GuardEffect {
    if isPending then Wait
    else if user.None? then RedirectToLogin
    else if !IsAdmin(user) then DenyAccess
    else FetchStats
  }

  /**
   * As written, an administrator whose session is still loading is refused and sent home
   * before the session can say who they are; the corrected guard waits, and once loaded lets
   * the administrator in.
   */
  lemma OnSessionAsWrittenDeniesPendingAdmin(admin: SessionUser)
    requires admin.role == Some("admin")
    ensures OnSessionAsWritten(true, None) == DenyAccess
    ensures OnSession(true, None) == Wait
    ensures OnSession(false, Some(admin)) == FetchStats
  {
  }

  /**
   * With the correction: the statistics are loaded exactly for a loaded administrator's
   * session; a loaded session without a user goes to the login page, one with another role is
   * refused; nothing happens while loading. Once the session has loaded, the corrected guard
   * agrees with the one as written.
   */
  lemma OnSessionSpec(isPending: bool, user: Option<SessionUser>)
    ensures OnSession(isPending, user) == FetchStats <==> !isPending && IsAdmin(user)
    ensures OnSession(isPending, user) == RedirectToLogin <==> !isPending && user.None?
    ensures OnSession(isPending, user) == DenyAccess <==> !isPending && user.Some? && user.value.role != Some("admin")
    ensures OnSession(isPending, user) == Wait <==> isPending
    ensures !isPending ==> OnSession(isPending, user) == OnSessionAsWritten(isPending, user)
    ensures OnSessionAsWritten(isPending, user) == FetchStats ==> IsAdmin(user)
  {
  }

  // ---------------------------------------------------------------------------
  // The statistics

  /** A list response as the page reads it: the array of rows, or an error object. */
  datatype ListBody<T> = Rows(rows: seq<T>) | ErrorObject

  datatype Stats = Stats(totalMovies: int, totalShowtimes: int, totalBookings: int, totalRevenue: int, totalUsers: int)

  const NoStats := Stats(0, 0, 0, 0, 0)

  /** `data.length || 0`: an error object has no length. */
  function Count<T>(body: ListBody<T>): (n: nat)
    ensures body.Rows? ==> n == |body.rows|
    ensures body.ErrorObject? ==> n == 0
  {
    if body.Rows? then |body.rows| else 0
  }

  /** What one booking adds to the revenue: its amount when its status is exactly "confirmed". */
  function ConfirmedAmount(b: Booking): int {
    if b.status == "confirmed" then b.totalAmount else 0
  }

  function Amount(b: Booking): int { b.totalAmount }

  function IsConfirmed(b: Booking): bool { b.status == "confirmed" }

  function IsUnconfirmed(b: Booking): bool { b.status != "confirmed" }

  /** The `reduce` over the bookings. */
  function Revenue(bookings: seq<Booking>): int {
    SumOf(bookings, ConfirmedAmount)
  }

  /**
   * `fetchStats` after the three responses: `None` when the booking body is an error object,
   * whose missing `reduce` throws before the statistics are set; otherwise the list lengths,
   * the confirmed revenue, and no users (there is no user list to count).
   */
  function StatsOf(movies: ListBody<Movie>, showtimes: ListBody<Showtime>, bookings: ListBody<Booking>): Option<Stats> {
    if bookings.ErrorObject? then None
    else Some(Stats(Count(movies), Count(showtimes), |bookings.rows|, Revenue(bookings.rows), 0))
  }

  lemma {:induction false} SumOfZero<T>(xs: seq<T>, f: T -> int)
    requires forall x :: x in xs ==> f(x) == 0
    ensures SumOf(xs, f) == 0
  {
    if xs != [] {
      SumOfZero(xs[..|xs| - 1], f);
    }
  }

  lemma {:induction false} SumOfSame<T>(xs: seq<T>, f: T -> int, g: T -> int)
    requires forall x :: x in xs ==> f(x) == g(x)
    ensures SumOf(xs, f) == SumOf(xs, g)
  {
    if xs != [] {
      SumOfSame(xs[..|xs| - 1], f, g);
    }
  }

  /**
   * The revenue is the sum of the amounts of the confirmed bookings and of nothing else:
   * bookings of any other status (including "Confirmed" in another letter case) add nothing,
   * so cancelling one never changes it, and it is never negative when no amount is.
   */
  lemma RevenueSpec(bookings: seq<Booking>)
    ensures Revenue(bookings) == SumOf(Filter(bookings, IsConfirmed), Amount)
    ensures (forall b :: b in bookings ==> b.totalAmount >= 0) ==> Revenue(bookings) >= 0
    ensures (forall b :: b in bookings ==> b.status != "confirmed") ==> Revenue(bookings) == 0
  {
    SumOfFilterSplit(bookings, IsConfirmed, IsUnconfirmed, ConfirmedAmount);
    SumOfSame(Filter(bookings, IsConfirmed), ConfirmedAmount, Amount);
    SumOfZero(Filter(bookings, IsUnconfirmed), ConfirmedAmount);
    if forall b :: b in bookings ==> b.totalAmount >= 0 {
      SumOfNonNegative(bookings, ConfirmedAmount);
    }
    if forall b :: b in bookings ==> b.status != "confirmed" {
      SumOfZero(bookings, ConfirmedAmount);
    }
  }

  /** Cancelling the booking at `k` removes its amount from the revenue if it was confirmed, and changes nothing otherwise. */
  lemma RevenueAfterCancel(bookings: seq<Booking>, k: nat)
    requires k < |bookings|
    ensures var cancelled := bookings[k := bookings[k].(status := "cancelled")];
      Revenue(cancelled) == Revenue(bookings) - ConfirmedAmount(bookings[k])
  {
    SumOfUpdate(bookings, k, bookings[k].(status := "cancelled"), ConfirmedAmount);
  }

  /**
   * The statistics are set exactly when the booking body is a list: the booking count and the
   * revenue come from that list, an error body counts as no movies or showtimes, and the user
   * count is always 0.
   */
  lemma StatsOfSpec(movies: ListBody<Movie>, showtimes: ListBody<Showtime>, bookings: ListBody<Booking>)
    ensures StatsOf(movies, showtimes, bookings).Some? <==> bookings.Rows?
    ensures StatsOf(movies, showtimes, bookings).Some? ==>
      var s := StatsOf(movies, showtimes, bookings).value;
      && s.totalUsers == 0
      && s.totalBookings == |bookings.rows|
      && s.totalRevenue == SumOf(Filter(bookings.rows, IsConfirmed), Amount)
      && (movies.ErrorObject? ==> s.totalMovies == 0)
      && (showtimes.ErrorObject? ==> s.totalShowtimes == 0)
      && s.totalMovies >= 0 && s.totalShowtimes >= 0
  {
    if bookings.Rows? {
      RevenueSpec(bookings.rows);
    }
  }

  /**
   * The booking list is requested without a `limit`, so its route sends its default page of
   * 10: the dashboard counts, and sums the revenue of, only the 10 newest bookings.
   */
  lemma DashboardSeesTenNewest(bookings: Table<Booking>)
    ensures var r := BookingsAllApi.Get(bookings, map[], None);
      && r.Ok?
      && |r.body| == if |bookings.rows| < 10 then |bookings.rows| else 10
  {
    var params: Params := map[];
    assert Param(params, "limit").None? && Param(params, "offset").None?;
    assert !Given(Param(params, "status")) && !Given(Param(params, "user_id"));
    FilterAll(bookings.rows, (b: Booking) => BookingsAllApi.Matches(params, b));
  }

  // ---------------------------------------------------------------------------
  // The page

  class Page {
    var stats: Stats
    var isLoading: bool

    constructor ()
      ensures stats == NoStats && isLoading
    {
      stats := NoStats;
      isLoading := true;
    }

    /** Whether the spinner is shown instead of the dashboard. */
    predicate ShowsSpinner(isPending: bool)
      reads this
    {
      isPending || isLoading
    }

    /**
     * The end of `fetchStats`: the statistics are replaced when they could be computed and
     * kept otherwise (the error is only logged); the spinner stops either way.
     */
    method FinishFetch(movies: ListBody<Movie>, showtimes: ListBody<Showtime>, bookings: ListBody<Booking>)
      modifies this
      ensures !isLoading
      ensures bookings.Rows? ==> stats == StatsOf(movies, showtimes, bookings).value
      ensures bookings.ErrorObject? ==> stats == old(stats)
    {
      var computed := StatsOf(movies, showtimes, bookings);
      if computed.Some? {
        stats := computed.value;
      }
      isLoading := false;
    }
  }
}
