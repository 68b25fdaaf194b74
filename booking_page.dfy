/**
 * The seat-and-food booking page (`src/pages/BookingPage.jsx`): seats are named by id strings
 * ("A1" to "H8"), the occupied ones come from the showtime's bookings, the food selection is a
 * dictionary from item id (as a string key) to a positive quantity, and the page computes the
 * total and the booking request it sends. The fetches and navigation are left out; what they
 * return is passed in.
 */
module BookingPage {
  import opened JsLib
  import opened Schema
  import SeatSeeds
  import BookingSummary

  /** `COLS`: the page shows 8 seats per row (rows are `SeatSeeds.Rows`, "A" to "H"). */
  const Cols: nat := 8

  /** A food item as the page fetches it; its id may come back as a number or a string. */
  datatype MenuItem = MenuItem(id: JsValue, price: int)

  // ---------------------------------------------------------------------------
  // The seat grid and the occupied seats

  /** The seat ids of the grid, row by row: `${row}${col}`. */
  function SeatGrid(): (ids: seq<string>)
    ensures |ids| == |SeatSeeds.Rows| * Cols
  {
    seq(|SeatSeeds.Rows| * Cols, i requires 0 <= i < |SeatSeeds.Rows| * Cols =>
      SeatSeeds.JsLabel(SeatSeeds.Rows[i / Cols], i % Cols + 1))
  }

  /** The grid has 64 ids, all different, one for each row and column. */
  lemma SeatGridSpec()
    ensures |SeatGrid()| == 64 && NoDuplicates(SeatGrid())
    ensures forall r, c :: 0 <= r < |SeatSeeds.Rows| && 1 <= c <= Cols ==> SeatSeeds.JsLabel(SeatSeeds.Rows[r], c) in SeatGrid()
  {
    var g := SeatGrid();
    forall i, j | 0 <= i < j < |g| ensures g[i] != g[j] {
      if g[i] == g[j] {
        SeatSeeds.JsLabelsDistinct(i / Cols, i % Cols + 1, j / Cols, j % Cols + 1);
      }
    }
    forall r, c | 0 <= r < |SeatSeeds.Rows| && 1 <= c <= Cols ensures SeatSeeds.JsLabel(SeatSeeds.Rows[r], c) in g {
      var i := r * Cols + c - 1;
      assert i / Cols == r && i % Cols == c - 1;
      assert g[i] == SeatSeeds.JsLabel(SeatSeeds.Rows[r], c);
    }
  }

  /** `bookings.reduce((acc, b) => [...acc, ...b.seats], [])`. */
  function Occupied(bookingSeats: seq<seq<string>>): seq<string> {
    if bookingSeats == [] then []
    else Occupied(bookingSeats[..|bookingSeats| - 1]) + bookingSeats[|bookingSeats| - 1]
  }

  /** A seat is occupied exactly when some booking holds it; the list keeps every booking's seats. */
  lemma {:induction false} OccupiedSpec(bookingSeats: seq<seq<string>>)
    ensures forall s :: s in Occupied(bookingSeats) <==> exists i :: 0 <= i < |bookingSeats| && s in bookingSeats[i]
    ensures |Occupied(bookingSeats)| == SumOf(bookingSeats, (b: seq<string>) => |b|)
  {
    if bookingSeats != [] {
      var init := bookingSeats[..|bookingSeats| - 1];
      OccupiedSpec(init);
      forall s ensures s in Occupied(bookingSeats) <==> exists i :: 0 <= i < |bookingSeats| && s in bookingSeats[i] {
        if s in Occupied(init) {
          var i :| 0 <= i < |init| && s in init[i];
          assert bookingSeats[i] == init[i];
        }
        if exists i :: 0 <= i < |bookingSeats| && s in bookingSeats[i] {
          var i :| 0 <= i < |bookingSeats| && s in bookingSeats[i];
          if i < |init| {
            assert init[i] == bookingSeats[i];
          }
        }
      }
    }
  }

  // ---------------------------------------------------------------------------
  // Choosing seats and food

  /** `toggleSeat`: occupied seats are ignored; a free one is removed when selected, else appended. */
  function ToggleSeat(occupied: seq<string>, selected: seq<string>, seatId: string): seq<string> {
    if seatId in occupied then selected
    else if seatId in selected then Filter(selected, (s: string) => s != seatId)
    else selected + [seatId]
  }

  /** What the selection always satisfies: no seat twice and no occupied seat. */
  predicate CleanSelection(occupied: seq<string>, selected: seq<string>) {
    NoDuplicates(selected) && forall i :: 0 <= i < |selected| ==> selected[i] !in occupied
  }

  /**
   * Toggling an occupied seat changes nothing; toggling a free one flips whether it is selected
   * and keeps every other seat as it was. The selection stays free of duplicates and occupied seats.
   */
  lemma ToggleSeatSpec(occupied: seq<string>, selected: seq<string>, seatId: string)
    ensures seatId in occupied ==> ToggleSeat(occupied, selected, seatId) == selected
    ensures seatId !in occupied ==> (seatId in ToggleSeat(occupied, selected, seatId) <==> seatId !in selected)
    ensures forall s :: s != seatId ==> (s in ToggleSeat(occupied, selected, seatId) <==> s in selected)
    ensures CleanSelection(occupied, selected) ==> CleanSelection(occupied, ToggleSeat(occupied, selected, seatId))
  {
    var r := ToggleSeat(occupied, selected, seatId);
    if seatId !in occupied && seatId !in selected {
      assert r[|selected|] == seatId;
      assert forall i :: 0 <= i < |selected| ==> r[i] == selected[i];
    }
    if seatId !in occupied && seatId in selected && CleanSelection(occupied, selected) {
      FilterKeepsDistinct(selected, seatId);
    }
  }

  lemma {:induction false} FilterKeepsDistinct(xs: seq<string>, x: string)
    requires NoDuplicates(xs)
    ensures NoDuplicates(Filter(xs, (s: string) => s != x))
  {
    if xs != [] {
      var init, last := xs[..|xs| - 1], xs[|xs| - 1];
      FilterKeepsDistinct(init, x);
      assert xs == init + [last];
      var r := Filter(xs, (s: string) => s != x);
      forall i, j | 0 <= i < j < |r| ensures r[i] != r[j] {
        if last != x && j == |r| - 1 {
          assert r[i] in init;
        }
      }
    }
  }

  /** `prev[itemId] || 0`. */
  function CurrentQuantity(selected: map<string, int>, key: string): int {
    if key in selected && selected[key] != 0 then selected[key] else 0
  }

  /** `updateFoodQuantity`: add `change`, never below 0; a result of 0 drops the key. */
  function FoodChanged(selected: map<string, int>, key: string, change: int): map<string, int> {
    var quantity := CurrentQuantity(selected, key) + change;
    var newQuantity := if quantity > 0 then quantity else 0;
    if newQuantity == 0 then selected - {key} else selected[key := newQuantity]
  }

  predicate PositiveQuantities(selected: map<string, int>) {
    forall k :: k in selected ==> selected[k] > 0
  }

  /**
   * The changed key holds the clamped new quantity when it is positive and is gone otherwise;
   * other keys are untouched; only positive quantities are kept; and one more of an item
   * followed by one fewer gives back the selection.
   */
  lemma FoodChangedSpec(selected: map<string, int>, key: string, change: int)
    ensures var q := CurrentQuantity(selected, key) + change;
      && (q > 0 ==> key in FoodChanged(selected, key, change) && FoodChanged(selected, key, change)[key] == q)
      && (q <= 0 ==> key !in FoodChanged(selected, key, change))
    ensures forall k :: k != key ==> (k in FoodChanged(selected, key, change) <==> k in selected)
    ensures forall k :: k != key && k in selected ==> FoodChanged(selected, key, change)[k] == selected[k]
    ensures PositiveQuantities(selected) ==> PositiveQuantities(FoodChanged(selected, key, change))
    ensures PositiveQuantities(selected) ==> FoodChanged(FoodChanged(selected, key, 1), key, -1) == selected
  {
    if PositiveQuantities(selected) {
      var once := FoodChanged(selected, key, 1);
      var twice := FoodChanged(once, key, -1);
      if key in selected {
        assert twice == selected;
      } else {
        assert forall k :: k in twice <==> k in selected;
        assert twice == selected;
      }
    }
  }

  // ---------------------------------------------------------------------------
  // Prices

  /** The price `foodItems.find(f => f.id === itemId)?.price || 0` would give if it compared the key with `String(f.id)`. */
  function PriceOf(items: seq<MenuItem>, key: string): int {
    match Find(items, (f: MenuItem) => ValueToString(f.id) == key)
    case Some(f) => f.price
    case None => 0
  }

  /** The price as the source looks it up: the string key against the id with `===`. */
  function PriceAsWritten(items: seq<MenuItem>, key: string): int {
    match Find(items, (f: MenuItem) => f.id == Str(key))
    case Some(f) => f.price
    case None => 0
  }

  function LineAmount(items: seq<MenuItem>): (string, int) -> int {
    (key, quantity) => PriceOf(items, key) * quantity
  }

  function LineAmountAsWritten(items: seq<MenuItem>): (string, int) -> int {
    (key, quantity) => PriceAsWritten(items, key) * quantity
  }

  ghost function FoodTotal(selected: map<string, int>, items: seq<MenuItem>): int {
    MapSum(selected, LineAmount(items))
  }

  ghost function FoodTotalAsWritten(selected: map<string, int>, items: seq<MenuItem>): int {
    MapSum(selected, LineAmountAsWritten(items))
  }

  /** `calculateTotal`: the seats at the showtime's price plus the food. */
  ghost function CalculateTotal(selectedSeats: seq<string>, showtime: Option<Showtime>, selected: map<string, int>, items: seq<MenuItem>): int {
    BookingSummary.SeatsTotal(|selectedSeats|, showtime) + FoodTotal(selected, items)
  }

  /**
   * As written, a menu whose ids are numbers prices every selected item at 0: the keys of
   * `selectedFood` are strings and `===` never matches a string with a number.
   */
  lemma FoodTotalAsWrittenIgnoresNumericIds(selected: map<string, int>, items: seq<MenuItem>)
    requires forall i :: 0 <= i < |items| ==> items[i].id.Num?
    ensures FoodTotalAsWritten(selected, items) == 0
  {
    forall key | key in selected ensures LineAmountAsWritten(items)(key, selected[key]) == 0 {
      assert Find(items, (f: MenuItem) => f.id == Str(key)).None?;
    }
    MapSumZero(selected, LineAmountAsWritten(items));
  }

  /** The concrete case: one popcorn with id 1 at price 5, two chosen: the page charges 0 for it. */
  lemma FoodTotalAsWrittenExample()
    ensures FoodTotalAsWritten(map[IntToString(1) := 2], [MenuItem(Num(1), 5)]) == 0
    ensures FoodTotal(map[IntToString(1) := 2], [MenuItem(Num(1), 5)]) == 10
  {
    var items := [MenuItem(Num(1), 5)];
    FoodTotalAsWrittenIgnoresNumericIds(map[IntToString(1) := 2], items);
    FoodTotalOne(items, 0, 2);
  }

  /** On a menu whose ids are strings, the corrected lookup is the written one. */
  lemma PriceAgreesOnStringIds(items: seq<MenuItem>, key: string)
    requires forall i :: 0 <= i < |items| ==> items[i].id.Str?
    ensures PriceOf(items, key) == PriceAsWritten(items, key)
  {
    FindSame(items, (f: MenuItem) => ValueToString(f.id) == key, (f: MenuItem) => f.id == Str(key));
  }

  /** On a menu whose ids are strings, the corrected food total is the written one. */
  lemma FoodTotalAgreesOnStringIds(selected: map<string, int>, items: seq<MenuItem>)
    requires forall i :: 0 <= i < |items| ==> items[i].id.Str?
    ensures FoodTotal(selected, items) == FoodTotalAsWritten(selected, items)
  {
    forall key | key in selected
      ensures LineAmount(items)(key, selected[key]) == LineAmountAsWritten(items)(key, selected[key])
    {
      PriceAgreesOnStringIds(items, key);
    }
    MapSumSame(selected, LineAmount(items), LineAmountAsWritten(items));
  }

  predicate UniqueKeys(items: seq<MenuItem>) {
    forall i, j :: 0 <= i < j < |items| ==> ValueToString(items[i].id) != ValueToString(items[j].id)
  }

  /** Comparing the key with `String(f.id)`, a chosen item is charged at its price, whatever the type of its id. */
  lemma FoodTotalOne(items: seq<MenuItem>, k: nat, quantity: int)
    requires UniqueKeys(items) && k < |items|
    ensures FoodTotal(map[ValueToString(items[k].id) := quantity], items) == items[k].price * quantity
  {
    var key := ValueToString(items[k].id);
    FindFirst(items, (f: MenuItem) => ValueToString(f.id) == key, k);
    assert PriceOf(items, key) == items[k].price;
    MapSumUpdate(map[], LineAmount(items), key, quantity);
    MapSumZero(map[], LineAmount(items));
  }

  /** Setting the quantity of a chosen item replaces its line in the total by its price times the new quantity. */
  lemma FoodTotalSet(selected: map<string, int>, items: seq<MenuItem>, k: nat, quantity: int)
    requires UniqueKeys(items) && k < |items|
    ensures var key := ValueToString(items[k].id);
      FoodTotal(selected[key := quantity], items)
      == FoodTotal(selected, items) - (if key in selected then items[k].price * selected[key] else 0) + items[k].price * quantity
  {
    var key := ValueToString(items[k].id);
    FindFirst(items, (f: MenuItem) => ValueToString(f.id) == key, k);
    assert LineAmount(items)(key, quantity) == items[k].price * quantity;
    assert key in selected ==> LineAmount(items)(key, selected[key]) == items[k].price * selected[key];
    MapSumUpdate(selected, LineAmount(items), key, quantity);
  }

  // ---------------------------------------------------------------------------
  // Booking

  datatype BookingStep = LoginRequired | SelectSeatFirst | ShowPaymentDialog

  /** `handleBooking`: a user is required, then at least one seat; then the payment dialog opens. */
  function HandleBooking(userId: Option<string>, selectedSeats: seq<string>): BookingStep {
    if userId.None? then LoginRequired
    else if |selectedSeats| == 0 then SelectSeatFirst
    else ShowPaymentDialog
  }

  /** A line of the request: the item id (the dictionary key), the quantity and the price found. */
  datatype FoodLine = FoodLine(id: string, quantity: int, price: int)

  /**
   * The request `confirmBooking` sends. The food lines are keyed by item id; their order in the
   * JSON array is not modelled.
   */
  datatype BookingRequest = BookingRequest(
    userId: string, showtimeId: Option<int>, movieId: int, seats: seq<string>,
    foodItems: map<string, FoodLine>, totalPrice: int, bookingDate: string,
    paymentMethodId: string, status: string)

  datatype Confirmation = SelectPaymentMethodFirst | Send(request: BookingRequest)

  /** `confirmBooking`: refused without a payment method; otherwise the request, stamped `now`. */
  ghost function ConfirmBooking(
    paymentMethodId: string, userId: string, showtimeParam: string, movieId: int,
    selectedSeats: seq<string>, showtime: Option<Showtime>, selected: map<string, int>,
    items: seq<MenuItem>, now: string): Confirmation
  {
    if paymentMethodId == "" then SelectPaymentMethodFirst
    else
      Send(BookingRequest(
        userId, ParseInt(showtimeParam), movieId, selectedSeats,
        map key | key in selected :: FoodLine(key, selected[key], PriceOf(items, key)),
        CalculateTotal(selectedSeats, showtime, selected, items), now, paymentMethodId, "confirmed"))
  }

  /** The payment dialog opens exactly for a logged-in user with at least one seat. */
  lemma HandleBookingSpec(userId: Option<string>, selectedSeats: seq<string>)
    ensures HandleBooking(userId, selectedSeats) == ShowPaymentDialog <==> userId.Some? && |selectedSeats| > 0
    ensures userId.None? ==> HandleBooking(userId, selectedSeats) == LoginRequired
  {
  }

  /**
   * Confirmation is refused exactly when no payment method is chosen; otherwise it sends one food
   * line per chosen item with its price (0 when unknown), the seats, the total and the status
   * "confirmed".
   */
  lemma ConfirmBookingSpec(
    paymentMethodId: string, userId: string, showtimeParam: string, movieId: int,
    selectedSeats: seq<string>, showtime: Option<Showtime>, selected: map<string, int>,
    items: seq<MenuItem>, now: string)
    ensures var c := ConfirmBooking(paymentMethodId, userId, showtimeParam, movieId, selectedSeats, showtime, selected, items, now);
      && (c.SelectPaymentMethodFirst? <==> paymentMethodId == "")
      && (c.Send? ==> (&& c.request.status == "confirmed"
                       && c.request.seats == selectedSeats
                       && c.request.paymentMethodId == paymentMethodId
                       && c.request.foodItems.Keys == selected.Keys
                       && (forall key :: key in selected ==> c.request.foodItems[key] == FoodLine(key, selected[key], PriceOf(items, key)))
                       && c.request.totalPrice == CalculateTotal(selectedSeats, showtime, selected, items)))
  {
    var c := ConfirmBooking(paymentMethodId, userId, showtimeParam, movieId, selectedSeats, showtime, selected, items, now);
    if paymentMethodId != "" {
      var lines := map key | key in selected :: FoodLine(key, selected[key], PriceOf(items, key));
      assert c.request.foodItems == lines;
    }
  }
}
