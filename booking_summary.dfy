/**
 * The booking summary card (`src/components/booking/BookingSummary.jsx`): the seat and food
 * subtotals, the total, when the confirm button is enabled, and which hint it shows. The food
 * selection is a dictionary from food item id, as a string key, to quantity.
 */
module BookingSummary {
  import opened JsLib
  import opened Schema

  /** `foodItems.find(f => f.id === parseInt(foodId))?.price || 0`. */
  function PriceOf(items: seq<FoodItem>, key: string): (p: int)
    ensures (forall i :: 0 <= i < |items| ==> ParseInt(key) != Some(items[i].id)) ==> p == 0
  {
    match ParseInt(key)
    case None => 0
    case Some(id) =>
      match Find(items, (f: FoodItem) => f.id == id)
      case Some(f) => f.price
      case None => 0
  }

  /** `selectedSeats.length * (showtime?.price || 0)`. */
  function SeatsTotal(seatCount: nat, showtime: Option<Showtime>): int {
    seatCount * if showtime.Some? then showtime.value.price else 0
  }

  function FoodLineAmount(items: seq<FoodItem>): (string, int) -> int {
    (key, quantity) => PriceOf(items, key) * quantity
  }

  /** The sum over the selected keys of price times quantity. */
  ghost function FoodTotal(selected: map<string, int>, items: seq<FoodItem>): int {
    MapSum(selected, FoodLineAmount(items))
  }

  /** `calculateTotal()`, which the card shows as `totalAmount`. */
  ghost function TotalAmount(seatCount: nat, showtime: Option<Showtime>, selected: map<string, int>, items: seq<FoodItem>): int {
    SeatsTotal(seatCount, showtime) + FoodTotal(selected, items)
  }

  predicate UniqueFoodIds(items: seq<FoodItem>) {
    forall i, j :: 0 <= i < j < |items| ==> items[i].id != items[j].id
  }

  /** The key `String(id)` of an item in a menu with distinct ids finds that item's price. */
  lemma PriceOfItem(items: seq<FoodItem>, k: nat)
    requires UniqueFoodIds(items) && k < |items|
    ensures PriceOf(items, IntToString(items[k].id)) == items[k].price
  {
    ParseIntOfIntToString(items[k].id);
    var p := (f: FoodItem) => f.id == items[k].id;
    FindFirst(items, p, k);
  }

  /** Keys that name no item (not a number, or no such id) add nothing. */
  lemma FoodTotalUnmatched(selected: map<string, int>, items: seq<FoodItem>)
    requires forall key, i :: key in selected && 0 <= i < |items| ==> ParseInt(key) != Some(items[i].id)
    ensures FoodTotal(selected, items) == 0
  {
    MapSumZero(selected, FoodLineAmount(items));
  }

  /**
   * Choosing `quantity` of an item (key `String(id)`) replaces that item's line in the food
   * total: its price times the old quantity goes out and its price times the new one comes in.
   */
  lemma FoodTotalSet(selected: map<string, int>, items: seq<FoodItem>, k: nat, quantity: int)
    requires UniqueFoodIds(items) && k < |items|
    ensures var key := IntToString(items[k].id);
      FoodTotal(selected[key := quantity], items)
      == FoodTotal(selected, items) - (if key in selected then items[k].price * selected[key] else 0) + items[k].price * quantity
  {
    var key := IntToString(items[k].id);
    PriceOfItem(items, k);
    MapSumUpdate(selected, FoodLineAmount(items), key, quantity);
  }

  /** With no showtime the seats cost nothing; with no food the total is the seats total. */
  lemma TotalAmountParts(seatCount: nat, showtime: Option<Showtime>, items: seq<FoodItem>)
    ensures showtime.None? ==> SeatsTotal(seatCount, showtime) == 0
    ensures TotalAmount(seatCount, showtime, map[], items) == seatCount * if showtime.Some? then showtime.value.price else 0
  {
  }

  // ---------------------------------------------------------------------------
  // The confirm button and the hints

  /** The confirm button's `disabled`. */
  predicate ConfirmDisabled(seatCount: nat, paymentMethod: JsValue, isBooking: bool) {
    seatCount == 0 || !Truthy(paymentMethod) || isBooking
  }

  datatype Hint = SelectSeat | SelectPaymentMethod

  /** The validation messages shown under the button, each under its own condition. */
  function Hints(seatCount: nat, paymentMethod: JsValue): seq<Hint> {
    (if seatCount == 0 then [SelectSeat] else [])
    + (if seatCount > 0 && !Truthy(paymentMethod) then [SelectPaymentMethod] else [])
  }

  /**
   * At most one hint shows: "select a seat" without seats, else "select a payment method"
   * without one, else none; and the button is enabled exactly when no hint shows and no booking
   * is under way.
   */
  lemma HintsSpec(seatCount: nat, paymentMethod: JsValue, isBooking: bool)
    ensures |Hints(seatCount, paymentMethod)| <= 1
    ensures seatCount == 0 <==> Hints(seatCount, paymentMethod) == [SelectSeat]
    ensures seatCount > 0 && !Truthy(paymentMethod) <==> Hints(seatCount, paymentMethod) == [SelectPaymentMethod]
    ensures !ConfirmDisabled(seatCount, paymentMethod, isBooking) <==> Hints(seatCount, paymentMethod) == [] && !isBooking
  {
    var h := Hints(seatCount, paymentMethod);
    if seatCount > 0 && !Truthy(paymentMethod) {
      assert h == [SelectPaymentMethod] && h[0] != SelectSeat;
    }
  }
}
