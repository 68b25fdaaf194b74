/**
 * The admin dashboard of the router-based screens (`src/pages/AdminPage.jsx`): the role
 * guard, the totals over the users, bookings and movies of the mock JSON server, and the list
 * of the five most recent bookings. A booking's `totalPrice` is whatever JavaScript value the
 * record holds, since the server does not check it.
 */
module AdminPage {
  import opened JsLib

  datatype BookingJson = BookingJson(id: JsValue, totalPrice: JsValue)
  datatype MovieJson = MovieJson(id: JsValue, title: string)

  /** The user `useAuth` reports; `role` is `None` when the record has none. */
  datatype AuthUser = AuthUser(role: Option<string>)

  /** The guard: anyone but an administrator is sent to "/" and sees nothing. */
  predicate MayView(user: Option<AuthUser>) {
    user.Some? && user.value.role == Some("admin")
  }

  /** The effect: `navigate("/")` for everyone else, `fetchDashboardData()` for an administrator. */
  datatype LoadEffect = NavigateHome | FetchDashboard

  function OnUser(user: Option<AuthUser>): (e: LoadEffect)
    ensures e == FetchDashboard <==> MayView(user)
    ensures e == NavigateHome <==> user.None? || user.value.role != Some("admin")
  {
    if !MayView(user) then NavigateHome else FetchDashboard
  }

  // ---------------------------------------------------------------------------
  // Revenue

  /**
   * `acc + (price || 0)` for a numeric `acc`: `None` once the sum has turned into text, which
   * happens when a non-empty string price is added; `true` adds 1.
   */
  function AddPrice(acc: int, price: JsValue): Option<int> {
    match price
    case Num(n) => Some(acc + n)
    case Bool(b) => Some(if b then acc + 1 else acc)
    case Str(s) => if s == "" then Some(acc) else None
    case _ => Some(acc)
  }

  /** The `reduce` from 0 over the bookings; `None` stands for a sum that became a string. */
  function Revenue(bookings: seq<BookingJson>): Option<int> {
    if bookings == [] then Some(0)
    else match Revenue(bookings[..|bookings| - 1])
         case None => None
         case Some(acc) => AddPrice(acc, bookings[|bookings| - 1].totalPrice)
  }

  /** The price a booking contributes when it is a number or is missing. */
  function NumericPrice(b: BookingJson): int {
    if b.totalPrice.Num? then b.totalPrice.n else 0
  }

  predicate NumericOrMissing(b: BookingJson) {
    b.totalPrice.Num? || b.totalPrice.Undefined? || b.totalPrice.Null?
  }

  /**
   * When every price is a number or missing, the revenue is the sum of the prices with a
   * missing one counting as 0, and it is never negative when no price is.
   */
  lemma {:induction false} RevenueSpec(bookings: seq<BookingJson>)
    ensures (forall b :: b in bookings ==> NumericOrMissing(b)) ==> Revenue(bookings) == Some(SumOf(bookings, NumericPrice))
    ensures (forall b :: b in bookings ==> NumericOrMissing(b) && NumericPrice(b) >= 0) ==> Revenue(bookings).value >= 0
  {
    if bookings != [] && forall b :: b in bookings ==> NumericOrMissing(b) {
      var init, last := bookings[..|bookings| - 1], bookings[|bookings| - 1];
      assert forall b :: b in init ==> b in bookings;
      RevenueSpec(init);
      assert last in bookings;
    }
    if forall b :: b in bookings ==> NumericOrMissing(b) && NumericPrice(b) >= 0 {
      SumOfNonNegative(bookings, NumericPrice);
    }
  }

  /** Once the sum is text, it stays text. */
  lemma {:induction false} RevenueTextSticks(bookings: seq<BookingJson>, more: seq<BookingJson>)
    requires Revenue(bookings).None?
    ensures Revenue(bookings + more).None?
    decreases |more|
  {
    if more == [] {
      assert bookings + more == bookings;
    } else {
      var all := bookings + more;
      assert all[..|all| - 1] == bookings + more[..|more| - 1];
      RevenueTextSticks(bookings, more[..|more| - 1]);
    }
  }

  /** A booking priced with non-empty text turns the revenue into text. */
  lemma TextPriceMakesText(bookings: seq<BookingJson>, b: BookingJson)
    requires b.totalPrice.Str? && b.totalPrice.s != ""
    ensures Revenue(bookings + [b]).None?
  {
    assert (bookings + [b])[..|bookings|] == bookings;
  }

  // ---------------------------------------------------------------------------
  // Recent bookings

  /** `bookings.slice(-5).reverse()`. */
  function RecentBookings(bookings: seq<BookingJson>): seq<BookingJson> {
    var tail := if |bookings| <= 5 then bookings else bookings[|bookings| - 5..];
    seq(|tail|, i requires 0 <= i < |tail| => tail[|tail| - 1 - i])
  }

  /**
   * The list holds the last five bookings (all of them when there are fewer), the most recent
   * first: its i-th entry is the i-th booking counting back from the end.
   */
  lemma RecentBookingsSpec(bookings: seq<BookingJson>)
    ensures |RecentBookings(bookings)| == if |bookings| < 5 then |bookings| else 5
    ensures forall i :: 0 <= i < |RecentBookings(bookings)| ==> RecentBookings(bookings)[i] == bookings[|bookings| - 1 - i]
    ensures forall b :: b in RecentBookings(bookings) ==> b in bookings
  {
    var r := RecentBookings(bookings);
    forall b | b in r ensures b in bookings {
      var i :| 0 <= i < |r| && r[i] == b;
      assert bookings[|bookings| - 1 - i] == b;
    }
  }

  // ---------------------------------------------------------------------------
  // The page

  datatype Stats = Stats(users: int, bookings: int, revenue: Option<int>, movies: int)

  class Page {
    var stats: Stats
    var recentBookings: seq<BookingJson>
    var moviesList: seq<MovieJson>
    var isLoading: bool

    constructor ()
      ensures stats == Stats(0, 0, Some(0), 0) && recentBookings == [] && moviesList == [] && isLoading
    {
      stats := Stats(0, 0, Some(0), 0);
      recentBookings := [];
      moviesList := [];
      isLoading := true;
    }

    /**
     * The end of `fetchDashboardData` with the user count and the booking and movie lists:
     * the counts are the lengths, the revenue the sum of the prices, the recent list the last
     * five bookings newest first, the movie list is kept for the table, and the spinner stops.
     */
    method FinishFetch(userCount: nat, bookings: seq<BookingJson>, movies: seq<MovieJson>)
      modifies this
      ensures stats == Stats(userCount, |bookings|, Revenue(bookings), |movies|)
      ensures recentBookings == RecentBookings(bookings) && moviesList == movies
      ensures !isLoading
    {
      stats := Stats(userCount, |bookings|, Revenue(bookings), |movies|);
      recentBookings := RecentBookings(bookings);
      moviesList := movies;
      isLoading := false;
    }

    /** A failed request is only logged: the spinner stops and the figures stay. */
    method FailFetch()
      modifies this
      ensures !isLoading && stats == old(stats) && recentBookings == old(recentBookings) && moviesList == old(moviesList)
    {
      isLoading := false;
    }
  }
}
