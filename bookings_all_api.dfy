/**
 * `GET /api/bookings/all` (`src/app/api/bookings/all/route.js`): every booking, optionally
 * filtered by status and user, newest first, one page at a time. A database failure, which the
 * model takes as a parameter, becomes a 500 with its own error code.
 */
module BookingsAllApi {
  import opened JsLib
  import opened Schema
  import opened Sorting
  import opened Store

  function CreatedAt(b: Booking): string { b.createdAt }

  /** `ORDER BY created_at DESC`. */
  function NewestFirst(): (Booking, Booking) -> bool { DescStr(CreatedAt) }

  /** `status` and `user_id` filters, each applied only when given. */
  predicate Matches(params: Params, b: Booking) {
    var status, userId := Param(params, "status"), Param(params, "user_id");
    (!Given(status) || b.status == status.value) && (!Given(userId) || b.userId == userId.value)
  }

  predicate ListParamsOk(params: Params) {
    NumericOrAbsent(Param(params, "limit")) && NumericOrAbsent(Param(params, "offset"))
  }

  function Matching(rows: seq<Booking>, params: Params): seq<Booking> {
    Filter(rows, (b: Booking) => Matches(params, b))
  }

  /**
   * The response. `failure` is the message of an error the database throws, if any; the
   * route reports it with the code INTERNAL_SERVER_ERROR.
   */
  function Get(bookings: Table<Booking>, params: Params, failure: Option<string>): Response<seq<Booking>>
    requires ListParamsOk(params)
  {
    if failure.Some? then Err(500, "INTERNAL_SERVER_ERROR", "Internal server error: " + failure.value)
    else
      Ok(200, Page(SortBy(Matching(bookings.rows, params), NewestFirst()),
                   ListLimit(Param(params, "limit")), ListOffset(Param(params, "offset"))))
  }

  /**
   * Without a failure the page holds bookings from the table that match both filters, newest
   * first, no more than a non-negative page size (at most 100); with no filter, no offset and
   * room enough (a negative limit is always enough), it is every booking. A failure is always a 500.
   */
  lemma GetSpec(bookings: Table<Booking>, params: Params, failure: Option<string>)
    requires ListParamsOk(params)
    ensures failure.Some? <==> Get(bookings, params, failure).Err?
    ensures failure.Some? ==> Get(bookings, params, failure).status == 500
    ensures failure.None? ==>
      var r := Get(bookings, params, failure).body;
      && (0 <= ListLimit(Param(params, "limit")) ==> |r| <= ListLimit(Param(params, "limit")) <= 100)
      && (forall x :: x in r ==> x in bookings.rows && Matches(params, x))
      && Sorted(r, NewestFirst())
    ensures (&& failure.None? && !Given(Param(params, "status")) && !Given(Param(params, "user_id"))
             && ListOffset(Param(params, "offset")) <= 0
             && (ListLimit(Param(params, "limit")) < 0 || |bookings.rows| <= ListLimit(Param(params, "limit")))) ==>
      multiset(Get(bookings, params, failure).body) == multiset(bookings.rows)
  {
    var matching := Matching(bookings.rows, params);
    var sorted := SortBy(matching, NewestFirst());
    var limit, offset := ListLimit(Param(params, "limit")), ListOffset(Param(params, "offset"));
    if failure.None? {
      assert Get(bookings, params, failure) == Ok(200, Page(sorted, limit, offset));
      DescStrTotal(CreatedAt);
      SortBySorted(matching, NewestFirst());
      SortedSlice(sorted, PageStart(|sorted|, offset), PageEnd(|sorted|, limit, offset), NewestFirst());
      PageOfFiltered(bookings.rows, (b: Booking) => Matches(params, b), sorted, limit, offset);
      if !Given(Param(params, "status")) && !Given(Param(params, "user_id")) && offset <= 0 && (limit < 0 || |bookings.rows| <= limit) {
        FilterAll(bookings.rows, (b: Booking) => Matches(params, b));
        PageAll(sorted, limit, offset);
      }
    }
  }
}
