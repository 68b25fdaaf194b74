/**
 * The booking slice (`src/store/slices/bookingSlice.js`): the booking in progress (showtime,
 * movie, selected seats, food quantities, payment method, total) and the history of finished
 * bookings, newest first. The reducers update the state in place.
 */
module BookingSlice {
  import opened JsLib
  import opened Schema

  /**
   * `currentBooking`. Food quantities are keyed by food item id (JavaScript turns the numeric
   * key into a string, which changes nothing here).
   */
  datatype CurrentBooking = CurrentBooking(
    showtimeId: Option<int>, movieDetails: Option<Movie>, selectedSeats: seq<Seat>,
    selectedFood: map<int, int>, paymentMethod: Option<string>, totalAmount: int)

  /** The booking in progress before anything is chosen, and after `clearCurrentBooking`. */
  const EmptyBooking := CurrentBooking(None, None, [], map[], None, 0)

  predicate Selected(seats: seq<Seat>, id: int) {
    exists i :: 0 <= i < |seats| && seats[i].id == id
  }

  predicate UniqueSeatIds(seats: seq<Seat>) {
    forall i, j :: 0 <= i < j < |seats| ==> seats[i].id != seats[j].id
  }

  /** Every quantity in the food map is positive. */
  predicate PositiveQuantities(food: map<int, int>) {
    forall k :: k in food ==> food[k] > 0
  }

  /** `findIndex(s => s.id === id)`, or -1. */
  function SeatIndex(seats: seq<Seat>, id: int): (r: int)
    ensures -1 <= r < |seats|
    ensures r >= 0 ==> seats[r].id == id && forall j :: 0 <= j < r ==> seats[j].id != id
    ensures r == -1 <==> !Selected(seats, id)
  {
    if seats == [] then -1
    else if seats[0].id == id then 0
    else
      var r := SeatIndex(seats[1..], id);
      assert forall j :: 1 <= j < |seats| ==> seats[j] == seats[1..][j - 1];
      if r == -1 then -1 else r + 1
  }

  /** `toggleSeatSelection` on the list: splice out the first seat with that id, or push the seat. */
  function Toggled(seats: seq<Seat>, seat: Seat): seq<Seat> {
    var index := SeatIndex(seats, seat.id);
    if index >= 0 then seats[..index] + seats[index + 1..] else seats + [seat]
  }

  /** `updateFoodQuantity` on the map: delete the key for a quantity of 0 or less, else set it. */
  function FoodUpdated(food: map<int, int>, foodId: int, quantity: int): map<int, int> {
    if quantity <= 0 then food - {foodId} else food[foodId := quantity]
  }

  // ---------------------------------------------------------------------------
  // Properties

  /**
   * With distinct seat ids, a toggled seat is selected afterwards exactly when it was not
   * before, every other seat keeps its status, and the ids stay distinct.
   */
  lemma ToggledSpec(seats: seq<Seat>, seat: Seat)
    requires UniqueSeatIds(seats)
    ensures Selected(Toggled(seats, seat), seat.id) <==> !Selected(seats, seat.id)
    ensures forall id :: id != seat.id ==> (Selected(Toggled(seats, seat), id) <==> Selected(seats, id))
    ensures UniqueSeatIds(Toggled(seats, seat))
  {
    var index := SeatIndex(seats, seat.id);
    var r := Toggled(seats, seat);
    if index >= 0 {
      assert forall j :: 0 <= j < index ==> r[j] == seats[j];
      assert forall j :: index <= j < |r| ==> r[j] == seats[j + 1];
      forall id ensures Selected(r, id) <==> Selected(seats, id) && id != seat.id {
        if Selected(seats, id) && id != seat.id {
          var i :| 0 <= i < |seats| && seats[i].id == id;
          assert r[if i < index then i else i - 1].id == id;
        }
      }
    } else {
      assert r[|seats|] == seat;
      assert forall j :: 0 <= j < |seats| ==> r[j] == seats[j];
      forall id | id != seat.id ensures Selected(r, id) <==> Selected(seats, id) {
        if Selected(r, id) {
          var i :| 0 <= i < |r| && r[i].id == id;
          assert seats[i].id == id;
        }
      }
    }
  }

  /** Toggling an unselected seat twice gives back the original list. */
  lemma ToggleTwice(seats: seq<Seat>, seat: Seat)
    requires !Selected(seats, seat.id)
    ensures Toggled(Toggled(seats, seat), seat) == seats
  {
    var once := seats + [seat];
    assert SeatIndex(seats, seat.id) == -1;
    assert once[|seats|] == seat;
    assert SeatIndex(once, seat.id) == |seats|;
    assert once[..|seats|] == seats;
  }

  /**
   * `updateFoodQuantity` leaves the key out for a quantity of 0 or less and holds the quantity
   * otherwise, keeps every other key, and so never lets a non-positive quantity in.
   */
  lemma FoodUpdatedSpec(food: map<int, int>, foodId: int, quantity: int)
    ensures quantity <= 0 ==> foodId !in FoodUpdated(food, foodId, quantity)
    ensures quantity > 0 ==> foodId in FoodUpdated(food, foodId, quantity) && FoodUpdated(food, foodId, quantity)[foodId] == quantity
    ensures forall k :: k != foodId ==> (k in FoodUpdated(food, foodId, quantity) <==> k in food)
    ensures forall k :: k != foodId && k in food ==> FoodUpdated(food, foodId, quantity)[k] == food[k]
    ensures PositiveQuantities(food) ==> PositiveQuantities(FoodUpdated(food, foodId, quantity))
  {
  }

  // ---------------------------------------------------------------------------
  // The slice

  class BookingState {
    var currentBooking: CurrentBooking
    var bookingHistory: seq<Booking>

    /** `initialState`. */
    constructor ()
      ensures currentBooking == EmptyBooking && bookingHistory == []
    {
      currentBooking := EmptyBooking;
      bookingHistory := [];
    }

    method SetShowtimeId(showtimeId: Option<int>)
      modifies this
      ensures currentBooking == old(currentBooking).(showtimeId := showtimeId)
      ensures bookingHistory == old(bookingHistory)
    {
      currentBooking := currentBooking.(showtimeId := showtimeId);
    }

    method SetMovieDetails(movie: Option<Movie>)
      modifies this
      ensures currentBooking == old(currentBooking).(movieDetails := movie)
      ensures bookingHistory == old(bookingHistory)
    {
      currentBooking := currentBooking.(movieDetails := movie);
    }

    method ToggleSeatSelection(seat: Seat)
      modifies this
      ensures currentBooking == old(currentBooking).(selectedSeats := Toggled(old(currentBooking.selectedSeats), seat))
      ensures bookingHistory == old(bookingHistory)
    {
      var seats := currentBooking.selectedSeats;
      var index := SeatIndex(seats, seat.id);
      if index >= 0 {
        seats := seats[..index] + seats[index + 1..];
      } else {
        seats := seats + [seat];
      }
      currentBooking := currentBooking.(selectedSeats := seats);
    }

    method SetSelectedSeats(seats: seq<Seat>)
      modifies this
      ensures currentBooking == old(currentBooking).(selectedSeats := seats)
      ensures bookingHistory == old(bookingHistory)
    {
      currentBooking := currentBooking.(selectedSeats := seats);
    }

    method UpdateFoodQuantity(foodId: int, quantity: int)
      modifies this
      ensures currentBooking == old(currentBooking).(selectedFood := FoodUpdated(old(currentBooking.selectedFood), foodId, quantity))
      ensures bookingHistory == old(bookingHistory)
    {
      var food := currentBooking.selectedFood;
      if quantity <= 0 {
        food := food - {foodId};
      } else {
        food := food[foodId := quantity];
      }
      currentBooking := currentBooking.(selectedFood := food);
    }

    method SetSelectedFood(food: map<int, int>)
      modifies this
      ensures currentBooking == old(currentBooking).(selectedFood := food)
      ensures bookingHistory == old(bookingHistory)
    {
      currentBooking := currentBooking.(selectedFood := food);
    }

    method SetPaymentMethod(paymentMethod: Option<string>)
      modifies this
      ensures currentBooking == old(currentBooking).(paymentMethod := paymentMethod)
      ensures bookingHistory == old(bookingHistory)
    {
      currentBooking := currentBooking.(paymentMethod := paymentMethod);
    }

    method SetTotalAmount(totalAmount: int)
      modifies this
      ensures currentBooking == old(currentBooking).(totalAmount := totalAmount)
      ensures bookingHistory == old(bookingHistory)
    {
      currentBooking := currentBooking.(totalAmount := totalAmount);
    }

    /** `unshift`: the new booking goes first and the rest shift by one, unchanged. */
    method AddToBookingHistory(booking: Booking)
      modifies this
      ensures bookingHistory == [booking] + old(bookingHistory)
      ensures |bookingHistory| == |old(bookingHistory)| + 1 && bookingHistory[0] == booking
      ensures forall i :: 0 <= i < |old(bookingHistory)| ==> bookingHistory[i + 1] == old(bookingHistory)[i]
      ensures currentBooking == old(currentBooking)
    {
      bookingHistory := [booking] + bookingHistory;
    }

    method ClearCurrentBooking()
      modifies this
      ensures currentBooking == EmptyBooking
      ensures bookingHistory == old(bookingHistory)
    {
      currentBooking := CurrentBooking(None, None, [], map[], None, 0);
    }
  }
}
