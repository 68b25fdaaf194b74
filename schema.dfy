/**
 * The database's record shapes (`src/db/schema.js`): one datatype per table, integer prices,
 * optional columns as `Option`, and the column defaults the database fills in on insert.
 */
module Schema {
  import opened JsLib

  datatype User = User(
    id: string, name: string, email: string, emailVerified: bool, image: Option<string>,
    role: string, createdAt: int, updatedAt: int)

  datatype Movie = Movie(
    id: int, title: string, description: Option<string>, duration: int, genre: string,
    rating: string, posterImage: Option<string>, trailerUrl: Option<string>,
    releaseDate: string, createdAt: string)

  datatype Showtime = Showtime(
    id: int, movieId: int, showDate: string, showTime: string, screenNumber: int,
    totalSeats: int, availableSeats: int, price: int, createdAt: string)

  datatype Seat = Seat(
    id: int, showtimeId: int, seatNumber: string, row: string, isBooked: bool,
    bookingId: Option<int>, createdAt: string)

  datatype FoodItem = FoodItem(
    id: int, name: string, description: Option<string>, price: int, category: string,
    imageUrl: Option<string>, available: bool, createdAt: string)

  datatype Booking = Booking(
    id: int, userId: string, showtimeId: int, totalSeats: int, totalAmount: int,
    bookingDate: string, status: string, paymentMethod: string, createdAt: string)

  datatype BookingSeat = BookingSeat(id: int, bookingId: int, seatId: int, createdAt: string)

  datatype BookingFood = BookingFood(
    id: int, bookingId: int, foodItemId: int, quantity: int, createdAt: string)

  function MovieId(m: Movie): int { m.id }
  function ShowtimeId(s: Showtime): int { s.id }
  function SeatId(s: Seat): int { s.id }
  function FoodItemId(f: FoodItem): int { f.id }
  function BookingId(b: Booking): int { b.id }
  function BookingSeatId(b: BookingSeat): int { b.id }
  function BookingFoodId(b: BookingFood): int { b.id }

  // ---------------------------------------------------------------------------
  // Inserts: the columns a writer may leave out get the schema's defaults.

  /** A seat row as inserted: `isBooked` defaults to false and `bookingId` may be omitted. */
  function NewSeat(id: int, showtimeId: int, seatNumber: string, row: string,
                   isBooked: Option<bool>, bookingId: Option<int>, createdAt: string): (s: Seat)
    ensures isBooked.None? ==> !s.isBooked
    ensures bookingId.None? ==> s.bookingId.None?
    ensures s.id == id && s.showtimeId == showtimeId && s.seatNumber == seatNumber && s.row == row
  {
    Seat(id, showtimeId, seatNumber, row,
         if isBooked.Some? then isBooked.value else false, bookingId, createdAt)
  }

  /** A booking row as inserted: `status` defaults to "confirmed". */
  function NewBooking(id: int, userId: string, showtimeId: int, totalSeats: int, totalAmount: int,
                      bookingDate: string, status: Option<string>, paymentMethod: string,
                      createdAt: string): (b: Booking)
    ensures status.None? ==> b.status == "confirmed"
    ensures status.Some? ==> b.status == status.value
  {
    Booking(id, userId, showtimeId, totalSeats, totalAmount, bookingDate,
            if status.Some? then status.value else "confirmed", paymentMethod, createdAt)
  }

  /** A food item row as inserted: `available` defaults to true. */
  function NewFoodItem(id: int, name: string, description: Option<string>, price: int,
                       category: string, imageUrl: Option<string>, available: Option<bool>,
                       createdAt: string): (f: FoodItem)
    ensures available.None? ==> f.available
    ensures available.Some? ==> f.available == available.value
  {
    FoodItem(id, name, description, price, category, imageUrl,
             if available.Some? then available.value else true, createdAt)
  }

  /** A user row as inserted: `role` defaults to "user" and `emailVerified` to false. */
  function NewUser(id: string, name: string, email: string, image: Option<string>,
                   role: Option<string>, now: int): (u: User)
    ensures role.None? ==> u.role == "user"
    ensures !u.emailVerified
  {
    User(id, name, email, false, image, if role.Some? then role.value else "user", now, now)
  }

  /** The UNIQUE constraint on `user.email`. */
  predicate EmailsUnique(users: seq<User>) {
    forall i, j :: 0 <= i < j < |users| ==> users[i].email != users[j].email
  }

  /** Adding a user keeps emails unique exactly when no existing user has that email. */
  lemma AddUserKeepsEmailsUnique(users: seq<User>, u: User)
    requires EmailsUnique(users)
    ensures EmailsUnique(users + [u]) <==> forall i :: 0 <= i < |users| ==> users[i].email != u.email
  {
    if !(forall i :: 0 <= i < |users| ==> users[i].email != u.email) {
      var i :| 0 <= i < |users| && users[i].email == u.email;
      assert (users + [u])[i].email == (users + [u])[|users|].email;
    }
  }

  // ---------------------------------------------------------------------------
  // References between tables

  predicate HasMovie(movies: seq<Movie>, id: int) { exists m :: m in movies && m.id == id }
  predicate HasShowtime(showtimes: seq<Showtime>, id: int) { exists s :: s in showtimes && s.id == id }
  predicate HasSeat(seats: seq<Seat>, id: int) { exists s :: s in seats && s.id == id }
  predicate HasFoodItem(items: seq<FoodItem>, id: int) { exists f :: f in items && f.id == id }
  predicate HasBooking(bookings: seq<Booking>, id: int) { exists b :: b in bookings && b.id == id }
  predicate HasUser(users: seq<User>, id: string) { exists u :: u in users && u.id == id }

  /** Every foreign key names an existing parent row. */
  predicate ReferencesHold(
    users: seq<User>, movies: seq<Movie>, showtimes: seq<Showtime>, seats: seq<Seat>,
    items: seq<FoodItem>, bookings: seq<Booking>, bookingSeats: seq<BookingSeat>,
    bookingFood: seq<BookingFood>)
  {
    (forall s :: s in showtimes ==> HasMovie(movies, s.movieId)) &&
    (forall s :: s in seats ==> HasShowtime(showtimes, s.showtimeId)
                                && (s.bookingId.Some? ==> HasBooking(bookings, s.bookingId.value))) &&
    (forall b :: b in bookings ==> HasUser(users, b.userId) && HasShowtime(showtimes, b.showtimeId)) &&
    (forall b :: b in bookingSeats ==> HasBooking(bookings, b.bookingId) && HasSeat(seats, b.seatId)) &&
    (forall b :: b in bookingFood ==> HasBooking(bookings, b.bookingId) && HasFoodItem(items, b.foodItemId))
  }

  /** A showtime whose movie exists can be added without breaking any reference. */
  lemma AddShowtimeKeepsReferences(
    users: seq<User>, movies: seq<Movie>, showtimes: seq<Showtime>, seats: seq<Seat>,
    items: seq<FoodItem>, bookings: seq<Booking>, bookingSeats: seq<BookingSeat>,
    bookingFood: seq<BookingFood>, s: Showtime)
    requires ReferencesHold(users, movies, showtimes, seats, items, bookings, bookingSeats, bookingFood)
    requires HasMovie(movies, s.movieId)
    ensures ReferencesHold(users, movies, showtimes + [s], seats, items, bookings, bookingSeats, bookingFood)
  {
    forall x | x in seats ensures HasShowtime(showtimes + [s], x.showtimeId) {
      var t :| t in showtimes && t.id == x.showtimeId;
      assert t in showtimes + [s];
    }
    forall b | b in bookings ensures HasShowtime(showtimes + [s], b.showtimeId) {
      var t :| t in showtimes && t.id == b.showtimeId;
      assert t in showtimes + [s];
    }
  }

  /** Unbooked seats of existing showtimes can be added without breaking any reference. */
  lemma AddSeatsKeepsReferences(
    users: seq<User>, movies: seq<Movie>, showtimes: seq<Showtime>, seats: seq<Seat>,
    items: seq<FoodItem>, bookings: seq<Booking>, bookingSeats: seq<BookingSeat>,
    bookingFood: seq<BookingFood>, added: seq<Seat>)
    requires ReferencesHold(users, movies, showtimes, seats, items, bookings, bookingSeats, bookingFood)
    requires forall s :: s in added ==> HasShowtime(showtimes, s.showtimeId) && s.bookingId.None?
    ensures ReferencesHold(users, movies, showtimes, seats + added, items, bookings, bookingSeats, bookingFood)
  {
    forall b | b in bookingSeats ensures HasSeat(seats + added, b.seatId) {
      var t :| t in seats && t.id == b.seatId;
      assert t in seats + added;
    }
  }
}
