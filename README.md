# CineBook core, modelled in Dafny

CineBook is a cinema booking site: visitors browse movies and showtimes, pick seats and snacks, pay with a saved card and manage their bookings. Administrators see revenue dashboards. Around the cinema sits a small shop of products with a cart. This project models the logic behind these screens and routes, and proves properties of that model:

- the Redux slices that hold the cart and the booking in progress (`CartSlice`, `BookingSlice`);
- the booking screen's seat and snack rules and its price arithmetic (`BookingPage`, `BookingSummary`, `SeatSelector`, `FoodSelector`);
- the REST routes for movies, showtimes, food items, seats and the booking list. They run over in-memory tables shaped like the database schema (`MoviesApi`, `ShowtimesApi`, `FoodItemsApi`, `SeatsApi`, `BookingsAllApi`, `Store`, `Schema`);
- the two seat seeding scripts (`SeatSeeds`);
- the list, lookup and guard logic of the pages:
  - home, movie details, both "my bookings" screens, both admin dashboards;
  - both payment-method screens;
  - the product pages and the mock login (`HomePage`, `MovieDetailsPage`, `MyBookingsPage`, `MyBookingsRoute`, `AdminDashboardRoute`, `AdminPage`, `PaymentMethodsRoute`, `PaymentMethodsPage`, `ProductRoute`, `ProductDetailsPage`, `Auth`);
- the string helpers and message deduplication of the visual-edit messenger (`VisualEdits`).

The JavaScript built-ins the code relies on are in `JsLib`:

- `parseInt`, `Number`, `String`, `trim`, `toLowerCase`;
- `split`/`join`, `slice(-k)`, `filter`, `find`, the `%` operator;
- truthiness, `||` and `??`.

`Sorting` holds the stable `Array.prototype.sort`. `Grouping` holds the group-by loop that several components use.

Where the code mutates state, the model does too:

- slices, pages and the database are classes whose methods change their fields;
- the seeding scripts, the grouping loops and `extractDirectTextContent` are methods with loops;
- `parseOrchidsId` is a method that pops the column and line parts off the split id, then joins the rest.

Each such method is proved against a specification function, and the properties are lemmas about those functions. Pure helpers are functions.

Time, randomness and I/O are parameters:

- the clock (`Date.now()`, `new Date()`), date parsing and `JSON.stringify`;
- fetch results and database failures;
- the DOM nodes that are read.

Responses are a datatype of a status with a body, or a status with the error code and message the route sends.

## Model

| member | source | states |
|---|---|---|
| `Schema.NewSeat` | src/db/schema.js:95-103 | an inserted seat is unbooked unless told otherwise, has no booking unless given one, and keeps the given columns |
| `Schema.NewBooking` | src/db/schema.js:116-126 | an inserted booking's status defaults to "confirmed" |
| `Schema.NewFoodItem` | src/db/schema.js:105-114 | an inserted food item is available unless told otherwise |
| `Schema.NewUser` | src/db/schema.js:4-19 | an inserted user's role defaults to "user" and the email starts unverified |
| `Schema.AddUserKeepsEmailsUnique` | src/db/schema.js:7 | adding a user keeps emails unique exactly when no existing user has that email |
| `Schema.AddShowtimeKeepsReferences` | src/db/schema.js:83-93 | a showtime whose movie exists can be added without breaking any reference |
| `Schema.AddSeatsKeepsReferences` | src/db/schema.js:95-103 | unbooked seats of existing showtimes can be added without breaking any reference |
| `Store.Lookup` | src/app/api/movies/route.js:23-26 | a row found by id is in the table and has that id; none means no row has it |
| `Store.Replace` | src/app/api/movies/route.js:214-217 | an update by id keeps the number of rows and the id counter and changes exactly the rows with that id |
| `Store.InsertValid` | src/db/schema.js:71 | inserting a row with the next AUTOINCREMENT id keeps ids valid, and the row is found by its id |
| `Store.ReplaceValid` | src/app/api/movies/route.js:214-217 | updating a row without changing its id keeps ids valid |
| `Store.RemoveSpec` | src/app/api/movies/route.js:263-265 | a deleted row is gone, every other row is kept, ids stay valid, and exactly one row fewer remains when it existed |
| `Store.DeleteByIdSpec` | src/app/api/movies/route.js:232-273 | an unreadable id is 400 INVALID_ID; an error changes nothing; a DELETE removes exactly the row it names and answers with it |
| `Store.IdParamOfIntToString` | src/app/api/movies/route.js:151 | the decimal text of any id, sent as `?id=`, is read back as that id |
| `Store.ListLimit` | src/app/api/movies/route.js:42 | as written, the limit is at most 100 and 10 when absent |
| `Store.CappedLimit` | src/app/api/movies/route.js:42 | the intended page size lies between 0 and 100 and agrees with the written one when that is not negative |
| `Store.PageEnd` | src/app/api/movies/route.js:69-72 | the window ends within the rows, holds at most `limit` rows, and runs to the end for a negative limit |
| `Store.Page` | src/app/api/movies/route.js:69-72 | a page with a non-negative limit holds at most that many rows |
| `Store.PageSubset` | src/app/api/movies/route.js:69-72 | every row of a page comes from the rows it was cut from |
| `Store.PageAll` | src/app/api/movies/route.js:69-72 | the first page with room enough is every row |
| `Store.CappedPageAtMost100` | src/app/api/movies/route.js:42 | with the corrected limit, a page never holds more than 100 rows |
| `Store.NegativeListLimitLiftsCap` | src/app/api/movies/route.js:42 | as written, a negative `limit` survives `Math.min` and the first page is every row, however many |
| `Store.ParseMinusOne` | src/app/api/movies/route.js:42 | `parseInt("-1")` is -1, a concrete negative limit |
| `Store.Db.constructor` | src/db/schema.js:69-141 | a fresh database has every table empty and every AUTOINCREMENT counter at 1 |
| `JsLib.ParseInt` | src/app/api/movies/route.js:42-43 | `parseInt` gives NaN exactly when no digit follows the leading white space and sign |
| `JsLib.ParseIntOfIntToString` | src/app/api/movies/route.js:13 | an id written as a number's text reads back as that number |
| `JsLib.StringToNumber` | src/app/products/page.jsx:20 | `Number` of a non-blank string is a number only when the trimmed text is an optional sign and digits |
| `JsLib.StringToNumberOfIntToString` | src/app/products/page.jsx:20 | `Number(String(n))` is `n` |
| `JsLib.TrimEmptyIff` | src/app/api/movies/route.js:118-122 | a string trims to empty exactly when it is all white space |
| `JsLib.TrimIdempotent` | src/app/api/movies/route.js:118-122 | trimming twice is trimming once |
| `JsLib.JsRem` | src/pages/HomePage.jsx:66 | JavaScript's remainder takes the sign of the dividend and completes truncating division |
| `JsLib.SliceLast` | src/app/payment-methods/page.jsx:75-76 | `slice(-k)` keeps the last `k` characters, or all of a shorter string, and is a suffix of it |
| `JsLib.Split` | src/visual-edits/VisualEditsMessenger.jsx:93 | a split has at least one part and no part holds the separator |
| `JsLib.JoinSplit` | src/visual-edits/VisualEditsMessenger.jsx:93-99 | joining the parts of a split gives back the text |
| `JsLib.Find` | src/hooks/useAuth.jsx:24 | `find` finds something exactly when some element matches, and what it finds matches |
| `JsLib.FindFirst` | src/hooks/useAuth.jsx:46 | `find` returns the first match |
| `JsLib.ToLower` | src/pages/HomePage.jsx:34-38 | lower-casing keeps the length and lower-cases each character in place |
| `JsLib.Trim` | src/app/api/food-items/route.js:87-92 | trimmed text neither starts nor ends with white space |
| `Grouping.GroupBy` | src/components/booking/SeatSelector.jsx:7-16 | the one-pass grouping loop builds exactly one group per distinct key, in order of first appearance, each holding the elements with that key in their original order |
| `Grouping.Keyed` | src/components/booking/SeatSelector.jsx:10-13 | every member of a group is in the list and has the group's key |
| `Grouping.DistinctKeys` | src/components/booking/SeatSelector.jsx:10-12 | every element's key is listed, only keys of elements are listed, and none twice |
| `Grouping.KeyedIsFilter` | src/components/booking/FoodSelector.jsx:11-17 | a group is the list filtered by its key, so relative order is kept |
| `Grouping.KeyedMember` | src/components/booking/SeatSelector.jsx:9-14 | an element is in group `k` exactly when it is in the list with key `k` |
| `Grouping.GroupSizesSum` | src/components/booking/SeatSelector.jsx:7-16 | the group sizes add up to the length of the list |
| `Sorting.SortBy` | src/components/booking/SeatSelector.jsx:53-58 | `Array.prototype.sort` with a comparator: a permutation of its input |
| `Sorting.SortByStable` | src/components/booking/SeatSelector.jsx:53-58 | the sort is stable: elements that compare equal keep their input order |
| `Sorting.SortBySorted` | src/components/booking/SeatSelector.jsx:53-58 | with a total preorder, the sorted result is in order |
| `Sorting.SortedStrings` | src/components/booking/SeatSelector.jsx:19 | `sort()` without a comparator: the same texts, in ascending order |
| `SeatSelector.ViewOfSpec` | src/components/booking/SeatSelector.jsx:60-65 | a seat shows as selected exactly when a selected seat has its id, and is disabled exactly when booked |
| `SeatSelector.SeatOrderKeyOfLabel` | src/components/booking/SeatSelector.jsx:55-56 | a seat number written as a digit-free prefix and a number sorts by that number |
| `SeatSelector.RowView` | src/components/booking/SeatSelector.jsx:53-59 | a row shows as many seats as its group has |
| `SeatSelector.RowViewSpec` | src/components/booking/SeatSelector.jsx:53-60 | a row shows each of its seats once, in ascending order of seat number, each marked selected or disabled as above |
| `SeatSelector.SeatRows` | src/components/booking/SeatSelector.jsx:7-19 | the rows are the distinct row keys in ascending order, and each row's view is its group, sorted and marked |
| `SeatSelector.RowGroupsSpec` | src/components/booking/SeatSelector.jsx:7-16 | every seat is in the group of its row and in no other, and the group sizes add up to the number of seats |
| `CartSlice.IndexOfId` | src/store/slices/cartSlice.js:22 | the index found is that of the first item with the id, and there is none exactly when no item has the id |
| `CartSlice.AddedSpec` | src/store/slices/cartSlice.js:20-28 | a product already in the cart has its quantity raised by one with nothing else changed; a new one is appended with quantity 1 after the unchanged items |
| `CartSlice.AddedSums` | src/store/slices/cartSlice.js:89-92 | `addToCart` raises the item count by exactly one and the total by the price of the item it counts |
| `CartSlice.AddedValid` | src/store/slices/cartSlice.js:20-28 | `addToCart` keeps item ids unique and every quantity at least 1 |
| `CartSlice.RemovedSpec` | src/store/slices/cartSlice.js:36-38 | no item with the id is left, every other item stays, the invariant is kept, and the count drops by the removed quantities |
| `CartSlice.FilterKeepsValid` | src/store/slices/cartSlice.js:38 | filtering out an id keeps ids unique and quantities positive |
| `CartSlice.QuantitySetSpec` | src/store/slices/cartSlice.js:46-56 | a quantity of 0 or less is `removeFromCart`; a positive one sets that item's quantity only, and an unknown id changes nothing; the invariant is kept |
| `CartSlice.Cart.constructor` | src/store/slices/cartSlice.js:4-14 | the initial items are the saved cart, or empty |
| `CartSlice.Cart.AddToCart` | src/store/slices/cartSlice.js:20-34 | the new items are `addToCart` applied to the old ones |
| `CartSlice.Cart.RemoveFromCart` | src/store/slices/cartSlice.js:36-44 | the new items are the old ones without the id |
| `CartSlice.Cart.UpdateQuantity` | src/store/slices/cartSlice.js:46-62 | the new items are the old ones with the quantity set or the item removed |
| `CartSlice.Cart.ClearCart` | src/store/slices/cartSlice.js:64-71 | the cart is empty and both selectors give 0 |
| `CartSlice.Cart.InitializeCart` | src/store/slices/cartSlice.js:74-81 | a saved cart replaces the items; without one they stay |
| `BookingSlice.SeatIndex` | src/store/slices/bookingSlice.js:29 | the index is that of the first seat with the id, and -1 exactly when none is selected |
| `BookingSlice.ToggledSpec` | src/store/slices/bookingSlice.js:27-36 | with distinct ids, the toggled seat is selected afterwards exactly when it was not before, every other seat keeps its status, and ids stay distinct |
| `BookingSlice.ToggleTwice` | src/store/slices/bookingSlice.js:29-35 | toggling an unselected seat twice gives back the original list |
| `BookingSlice.FoodUpdatedSpec` | src/store/slices/bookingSlice.js:42-50 | a quantity of 0 or less removes the key, a positive one is stored, other keys are kept, and no non-positive quantity gets in |
| `BookingSlice.BookingState.constructor` | src/store/slices/bookingSlice.js:3-13 | the empty current booking and an empty history |
| `BookingSlice.BookingState.SetShowtimeId` | src/store/slices/bookingSlice.js:19-21 | only the showtime id of the current booking changes |
| `BookingSlice.BookingState.SetMovieDetails` | src/store/slices/bookingSlice.js:23-25 | only the movie details change |
| `BookingSlice.BookingState.ToggleSeatSelection` | src/store/slices/bookingSlice.js:27-36 | only the seat list changes, to the toggled list |
| `BookingSlice.BookingState.SetSelectedSeats` | src/store/slices/bookingSlice.js:38-40 | only the seat list changes |
| `BookingSlice.BookingState.UpdateFoodQuantity` | src/store/slices/bookingSlice.js:42-50 | only the food map changes, to the updated map |
| `BookingSlice.BookingState.SetSelectedFood` | src/store/slices/bookingSlice.js:52-54 | only the food map changes |
| `BookingSlice.BookingState.SetPaymentMethod` | src/store/slices/bookingSlice.js:56-58 | only the payment method changes |
| `BookingSlice.BookingState.SetTotalAmount` | src/store/slices/bookingSlice.js:60-62 | only the total amount changes |
| `BookingSlice.BookingState.AddToBookingHistory` | src/store/slices/bookingSlice.js:64-66 | the new entry is first, the history grows by one, and the older entries shift by one unchanged |
| `BookingSlice.BookingState.ClearCurrentBooking` | src/store/slices/bookingSlice.js:68-77 | the current booking is the initial one again and the history is untouched |
| `BookingPage.SeatGrid` | src/pages/BookingPage.jsx:15-16 | the grid has one id per row letter and column |
| `BookingPage.SeatGridSpec` | src/pages/BookingPage.jsx:201-206 | the grid holds 64 ids, all different, one for each row A-H and column 1-8 |
| `BookingPage.OccupiedSpec` | src/pages/BookingPage.jsx:51-53 | a seat is occupied exactly when some booking holds it, and the list keeps every booking's seats |
| `BookingPage.ToggleSeatSpec` | src/pages/BookingPage.jsx:74-84 | an occupied seat changes nothing; a free one flips whether it is selected and no other seat changes; the selection stays free of duplicates and occupied seats |
| `BookingPage.FilterKeepsDistinct` | src/pages/BookingPage.jsx:79 | removing a seat keeps the selection free of duplicates |
| `BookingPage.FoodChangedSpec` | src/pages/BookingPage.jsx:86-97 | the key holds the clamped new quantity when positive and is gone otherwise; other keys stay; quantities stay positive; one more then one fewer gives back the selection |
| `BookingPage.FoodTotalAsWrittenIgnoresNumericIds` | src/pages/BookingPage.jsx:101-104 | as written, with numeric menu ids every chosen item is priced at 0 |
| `BookingPage.FoodTotalAsWrittenExample` | src/pages/BookingPage.jsx:101-104 | two of item 1 at price 5 cost 0 as written and 10 with the corrected comparison |
| `BookingPage.FoodTotalOne` | src/pages/BookingPage.jsx:99-106 | with the key compared to the id as text, a chosen item costs its price times its quantity |
| `BookingPage.FoodTotalSet` | src/pages/BookingPage.jsx:99-106 | setting an item's quantity replaces its line in the total by price times the new quantity |
| `BookingPage.HandleBookingSpec` | src/pages/BookingPage.jsx:108-121 | the payment dialog opens exactly for a logged-in user with at least one seat; without a user, login is required |
| `BookingPage.PriceAgreesOnStringIds` | src/pages/BookingPage.jsx:140 | on a menu whose ids are strings, the corrected price lookup gives what `f.id === itemId` gives |
| `BookingPage.FoodTotalAgreesOnStringIds` | src/pages/BookingPage.jsx:99-106 | on a menu whose ids are strings, the corrected food total is the written one |
| `BookingPage.ConfirmBookingSpec` | src/pages/BookingPage.jsx:123-146 | corrected price lookup (see Findings): confirmation is refused exactly without a payment method; otherwise the request has status "confirmed", the seats, one food line per chosen item with its price (0 when unknown), and the calculated total |
| `BookingSummary.PriceOf` | src/components/booking/BookingSummary.jsx:21-22 | a key that `parseInt` matches to no item's id is priced at 0 |
| `BookingSummary.PriceOfItem` | src/components/booking/BookingSummary.jsx:20-23 | in a menu with distinct ids, the key `String(id)` finds that item's price |
| `BookingSummary.FoodTotalUnmatched` | src/components/booking/BookingSummary.jsx:28-31 | keys that name no item add nothing to the food total |
| `BookingSummary.FoodTotalSet` | src/components/booking/BookingSummary.jsx:28-31 | choosing a quantity of an item replaces its line in the food total by price times the new quantity |
| `BookingSummary.TotalAmountParts` | src/components/booking/BookingSummary.jsx:18-27 | with no showtime the seats cost 0; with no food the total is the number of seats times the price |
| `BookingSummary.HintsSpec` | src/components/booking/BookingSummary.jsx:131-159 | at most one hint shows, "select a seat" exactly without seats and "select a payment method" exactly with seats and no method; the button is enabled exactly when no hint shows and no booking is under way |
| `FoodSelector.Render` | src/components/booking/FoodSelector.jsx:11-21 | nothing is shown exactly for an empty menu; otherwise the categories are the distinct ones in order of first appearance, each with its items |
| `FoodSelector.MenuGroupsSpec` | src/components/booking/FoodSelector.jsx:11-17 | a category's group is the menu filtered by that category, in menu order; every item is in its own category's group only; the groups hold every item once |
| `FoodSelector.ButtonsSpec` | src/components/booking/FoodSelector.jsx:83-95 | an unchosen item shows 0; minus is disabled exactly at 0 or when unavailable; plus exactly when unavailable |
| `SeatsApi.SeatOrderTotal` | src/app/api/seats/route.js:66 | ordering by row, then seat number, is a total preorder |
| `SeatsApi.GetById` | src/app/api/seats/route.js:13-40 | an id `parseInt` cannot read gives 400 INVALID_ID; an unknown id gives 404; otherwise the seat with that id |
| `SeatsApi.GetListErrors` | src/app/api/seats/route.js:43-61 | without an id, a missing showtime id gives 400 SHOWTIME_ID_REQUIRED and an unreadable one 400 INVALID_SHOWTIME_ID |
| `SeatsApi.GetListSpec` | src/app/api/seats/route.js:63-68 | the list holds exactly the showtime's seats, ordered by row and then seat number |
| `SeatsApi.PutChangesOnlyBookingFields` | src/app/api/seats/route.js:106-150 | a failed PUT changes no row; a successful one changes only `isBooked` and `bookingId` of the seat it names |
| `SeatsApi.ReplaceKeepsOthers` | src/app/api/seats/route.js:135-138 | rows other than the target are untouched |
| `SeatsApi.CamelCaseWins` | src/app/api/seats/route.js:111-113 | the camelCase key wins unless null or absent |
| `SeatsApi.PutErrors` | src/app/api/seats/route.js:86-133 | a missing id gives 400 ID_REQUIRED, an unreadable one 400 INVALID_ID, an unknown seat 404 SEAT_NOT_FOUND with the table unchanged |
| `SeatsApi.PutHandler` | src/app/api/seats/route.js:81-150 | the handler's response and new seat table are those of the PUT specification, and no other table changes |
| `ShowtimesApi.ShowtimeOrderTotal` | src/app/api/showtimes/route.js:84 | descending date, then descending time, is a total preorder |
| `ShowtimesApi.GetById` | src/app/api/showtimes/route.js:12-56 | an unreadable id gives 400 INVALID_ID; a found showtime has that id and carries its movie exactly when the movie exists (left join) |
| `ShowtimesApi.ListSpec` | src/app/api/showtimes/route.js:58-88 | with the limit as written, each showtime on a page is from the table and matches every filter given, newest date and time first; a page is no longer than a non-negative limit, which is at most 100 |
| `ShowtimesApi.ListComplete` | src/app/api/showtimes/route.js:58-88 | a first page with room holds every matching showtime; a negative limit always has room |
| `ShowtimesApi.PostFirstMissing` | src/app/api/showtimes/route.js:101-139 | the first falsy required field, in the route's order, decides the 400 and nothing is inserted |
| `ShowtimesApi.PostZeroPriceRefused` | src/app/api/showtimes/route.js:134-139 | a price of 0 is refused and nothing is inserted |
| `ShowtimesApi.PostMovieChecks` | src/app/api/showtimes/route.js:141-161 | with every required field present, MOVIE_NOT_FOUND comes exactly when the movie id names no movie, so INVALID_NUMERIC_FIELDS is never caused by the movie id |
| `ShowtimesApi.PostCreates` | src/app/api/showtimes/route.js:163-178 | a created showtime gets the next id, trimmed date and time, an existing movie and as many available seats as seats; it is appended; an error changes nothing |
| `ShowtimesApi.PutUnknownIgnoresBody` | src/app/api/showtimes/route.js:200-214 | an unknown showtime is a 404 before the body is read, whatever the body |
| `ShowtimesApi.PatchOfSpec` | src/app/api/showtimes/route.js:216-256 | the update carries each field present in the body, parsed or trimmed, and no other; a movie id must name a movie |
| `ShowtimesApi.PutUpdates` | src/app/api/showtimes/route.js:188-265 | a successful PUT replaces only the named row, by the old row with the patch applied; an error changes nothing |
| `ShowtimesApi.PostHandler` | src/app/api/showtimes/route.js:98-186 | the handler's response and new table are those of the POST specification |
| `ShowtimesApi.PutHandler` | src/app/api/showtimes/route.js:188-273 | the handler, building the update one key at a time, gives the PUT specification's response and table |
| `ShowtimesApi.DeleteHandler` | src/app/api/showtimes/route.js:275-321 | the handler's response and new table are those of the DELETE specification |
| `FoodItemsApi.GetById` | src/app/api/food-items/route.js:12-34 | an unreadable id gives 400 INVALID_ID, an unknown one 404 NOT_FOUND, otherwise the item with that id |
| `FoodItemsApi.ListSpec` | src/app/api/food-items/route.js:36-71 | with the limit as written, each item on a page is from the table and matches the filters, newest first; a page is no longer than a non-negative limit, which is at most 100; `available` other than "true" selects unavailable items |
| `FoodItemsApi.ListComplete` | src/app/api/food-items/route.js:36-71 | a first page with room holds every matching item; a negative limit always has room |
| `FoodItemsApi.AvailableOnInsert` | src/app/api/food-items/route.js:128 | an absent `available` stores true and a null one breaks the NOT NULL column |
| `FoodItemsApi.Optionals` | src/app/api/food-items/route.js:116-128 | a falsy description or image stores null, an absent `available` stores true, and the failures are exactly a truthy non-string text or a null `available` |
| `FoodItemsApi.PostCreates` | src/app/api/food-items/route.js:115-137 | a created item has a non-blank trimmed name and category, its non-negative price, null for a falsy description or image, availability defaulting to true, and the next id; an error changes nothing |
| `FoodItemsApi.PostValidation` | src/app/api/food-items/route.js:86-113 | the name is checked first, then a missing price, then an invalid one; a price of 0 passes both price checks and a negative one is refused |
| `FoodItemsApi.NullableUpdate` | src/app/api/food-items/route.js:198-200 | an absent field is not updated, a falsy one stores null, a non-empty string stores its trimmed text, and only a truthy non-string throws |
| `FoodItemsApi.PatchOfSpec` | src/app/api/food-items/route.js:185-222 | the update carries exactly the fields present in the body, read as the route reads them |
| `FoodItemsApi.PutUpdates` | src/app/api/food-items/route.js:147-230 | a successful PUT replaces only the named row, by the old row with the update applied; an error changes nothing |
| `FoodItemsApi.PutValidation` | src/app/api/food-items/route.js:163-196 | on a known item a bad price is a 400 whatever else the body holds, and a blank name is INVALID_NAME |
| `FoodItemsApi.PostHandler` | src/app/api/food-items/route.js:81-145 | the handler's response and new table are those of the POST specification |
| `FoodItemsApi.PutHandler` | src/app/api/food-items/route.js:147-238 | the handler, building the update key by key, gives the PUT specification's response and table |
| `FoodItemsApi.DeleteHandler` | src/app/api/food-items/route.js:240-286 | the handler's response and new table are those of the DELETE specification |
| `MoviesApi.GetById` | src/app/api/movies/route.js:12-39 | an unreadable id gives 400 INVALID_ID, an unknown one 404 MOVIE_NOT_FOUND, otherwise the movie with that id |
| `MoviesApi.ListSpec` | src/app/api/movies/route.js:41-72 | with the limit as written, each movie on a page is from the table and matches the filters, newest first; a page is no longer than a non-negative limit, which is at most 100 |
| `MoviesApi.ListComplete` | src/app/api/movies/route.js:41-72 | a first page with room holds every matching movie; a negative limit always has room |
| `MoviesApi.MissingFields` | src/app/api/movies/route.js:92-93 | the missing fields are exactly the falsy required ones |
| `MoviesApi.Sanitized` | src/app/api/movies/route.js:116-127 | the stored movie has the trimmed required texts, null for each falsy optional text, the parsed duration, the id and the time |
| `MoviesApi.PostMissing` | src/app/api/movies/route.js:91-103 | the answer is MISSING_REQUIRED_FIELDS, listing the falsy required fields joined by ", ", exactly when one is falsy; an error stores nothing |
| `MoviesApi.PostCreates` | src/app/api/movies/route.js:116-133 | a created movie has a positive parsed duration, trimmed texts, null for a falsy description, and the next id, and is appended |
| `MoviesApi.PostDuration` | src/app/api/movies/route.js:105-114 | with every required field present, INVALID_DURATION comes exactly for a duration that is unreadable or not positive |
| `MoviesApi.NullableUpdate` | src/app/api/movies/route.js:183 | an absent text is not updated, a falsy one stores null, a non-empty string stores its trimmed text, and only a truthy non-string throws |
| `MoviesApi.PatchOf` | src/app/api/movies/route.js:180-201 | building the update stops only with an error response |
| `MoviesApi.Updated` | src/app/api/movies/route.js:179-217 | applying the body stops only with an error response |
| `MoviesApi.LeadingUpdatesSpec` | src/app/api/movies/route.js:182-196 | the first four keys of the update are read from the body as the route reads them |
| `MoviesApi.TrailingUpdatesSpec` | src/app/api/movies/route.js:197-201 | the last four keys are read from the body and the first four are kept |
| `MoviesApi.ApplySpec` | src/app/api/movies/route.js:180-217 | an update read as the route reads it, applied to a row, gives a row updated from the old one |
| `MoviesApi.UpdatedSpec` | src/app/api/movies/route.js:180-217 | an applied body gives a row updated from the old one |
| `MoviesApi.PutUpdates` | src/app/api/movies/route.js:146-219 | a successful PUT replaces only the named row, by the old row with the update applied; an error changes nothing |
| `MoviesApi.PutNoFields` | src/app/api/movies/route.js:203-212 | a body with none of the eight keys gives NO_FIELDS_TO_UPDATE and changes nothing |
| `MoviesApi.PostHandler` | src/app/api/movies/route.js:87-144 | the handler's response and new table are those of the POST specification |
| `MoviesApi.PutHandler` | src/app/api/movies/route.js:146-230 | the handler, building the update one key at a time, gives the PUT specification's response and table |
| `MoviesApi.DeleteHandler` | src/app/api/movies/route.js:232-284 | the handler's response and new table are those of the DELETE specification |
| `BookingsAllApi.GetSpec` | src/app/api/bookings/all/route.js:6-54 | a failure is exactly a 500; otherwise, with the limit as written, each booking on the page is from the table and matches both filters, newest first, and the page is no longer than a non-negative limit (at most 100); with no filter, no offset and room enough (a negative limit is always enough) it is every booking |
| `SeatSeeds.RowPlaces` | src/db/seeds/seats.js:25-34 | a row holds as many seats as requested |
| `SeatSeeds.ShowtimePlaces` | src/db/seeds/seats.js:24-35 | a showtime gets ten seats per row |
| `SeatSeeds.Layout` | src/db/seeds/seats.js:20-42 | every showtime gets 80 seats |
| `SeatSeeds.Ids` | src/db/seeds/seats.ts:6 | the showtime ids are read in table order |
| `SeatSeeds.Drafts` | src/db/seeds/seats.ts:23-30 | one draft per seat, the k-th stamped with the clock reading of its turn |
| `SeatSeeds.InsertDrafts` | src/db/seeds/seats.js:38 | a multi-row insert appends the drafts in order with consecutive ids from the counter, keeping the rows already there |
| `SeatSeeds.RowPlacesAt` | src/db/seeds/seats.js:25-33 | seat `n` of a row is at position `n - 1` |
| `SeatSeeds.ShowtimePlacesAt` | src/db/seeds/seats.js:24-35 | seat `n` of row `r` is at position `10 r + n - 1` |
| `SeatSeeds.LayoutAt` | src/db/seeds/seats.js:20-42 | seat `n` of row `r` of the `i`-th showtime is at position `80 i + 10 r + n - 1` |
| `SeatSeeds.JsLabelsDistinct` | src/db/seeds/seats.js:28 | the labels "A1" to "H10" tell every seat of a showtime apart |
| `SeatSeeds.TsLabelsRepeat` | src/db/seeds/seats.ts:25 | the bare labels repeat across rows, so seats are told apart only together with the row |
| `SeatSeeds.DraftsAppend` | src/db/seeds/seats.ts:20-33 | stamping two lists one after the other is stamping them together |
| `SeatSeeds.InsertDraftsAppend` | src/db/seeds/seats.ts:37-41 | inserting two lists of drafts in turn is inserting them together |
| `SeatSeeds.PushShowtimeSeats` | src/db/seeds/seats.ts:21-32 | the two inner loops push the 80 seats of one showtime in row and seat order |
| `SeatSeeds.SeedJs` | src/db/seeds/seats.js:4-45 | the seats table ends up holding exactly 80 labelled seats per showtime, in showtime order, and the count reported is 80 per showtime |
| `SeatSeeds.BatchCountOf` | src/db/seeds/seats.ts:40 | items in batches of 500 whose last is short take `ceil(n / 500)` batches |
| `SeatSeeds.InsertInBatches` | src/db/seeds/seats.ts:35-41 | the batches insert every seat in order; all are full but the last, which is not empty; there are `ceil(n / 500)` of them |
| `SeatSeeds.SeedTs` | src/db/seeds/seats.ts:4-44 | with no showtime nothing changes; otherwise 80 seats per showtime are inserted in order, in batches of 500 |
| `PaymentMethodsRoute.MaskedNumber` | src/app/payment-methods/page.jsx:75 | a stored number is twelve masked digits in groups, then the last four characters typed |
| `PaymentMethodsRoute.ExpiryDate` | src/app/payment-methods/page.jsx:76 | the expiry is the month, a slash and the last two characters of the year |
| `PaymentMethodsRoute.MaxId` | src/app/payment-methods/page.jsx:79 | an upper bound of every id in use, 0 for no cards |
| `PaymentMethodsRoute.NewId` | src/app/payment-methods/page.jsx:79 | the id given to a new card is not already in use (corrected, see Findings) |
| `PaymentMethodsRoute.AddedSpec` | src/app/payment-methods/page.jsx:61-97 | an incomplete form is refused, and only then; a complete one appends exactly one card after the unchanged list, with a fresh id, the masked number, holder and expiry, default exactly when it is the first; distinct ids and at most one default are kept |
| `PaymentMethodsRoute.WithDefaultSpec` | src/app/payment-methods/page.jsx:106-112 | after setting a default exactly the card with that id is default, none if absent, nothing else changes, and at most one default remains |
| `PaymentMethodsRoute.DeletedSpec` | src/app/payment-methods/page.jsx:114-123 | deleting the default while other cards remain is refused, and only that is; otherwise exactly that card goes and the rest stay in order, keeping distinct ids and at most one default |
| `PaymentMethodsRoute.FilterKeepsOrder` | src/app/payment-methods/page.jsx:121 | removing cards keeps distinct ids and at most one default |
| `PaymentMethodsRoute.AddedAsWrittenDuplicates` | src/app/payment-methods/page.jsx:79 | with `length + 1` as the id, a card added after a deletion can repeat an id, and making it default then marks two cards |
| `PaymentMethodsRoute.AddedAsWrittenExample` | src/app/payment-methods/page.jsx:25-42 | from the two initial cards, add one, delete card 2, add again: the ids repeat |
| `PaymentMethodsRoute.InitialShape` | src/app/payment-methods/page.jsx:25-42 | the page starts with cards 1 and 2, card 2 not the default |
| `PaymentMethodsRoute.DeleteMiddle` | src/app/payment-methods/page.jsx:114-123 | deleting a non-default middle card leaves the outer two |
| `PaymentMethodsRoute.WithoutWhitespace` | src/app/payment-methods/page.jsx:132 | the typed number with no white space left in it |
| `PaymentMethodsRoute.Chunks` | src/app/payment-methods/page.jsx:127 | splitting into groups gives no groups exactly for empty text |
| `PaymentMethodsRoute.ChunksSpec` | src/app/payment-methods/page.jsx:127 | the groups put back together give the text; each has one to four characters, all but the last exactly four |
| `PaymentMethodsRoute.UnspacedJoin` | src/app/payment-methods/page.jsx:128 | joining space-free groups with spaces and dropping the spaces gives the groups concatenated |
| `PaymentMethodsRoute.FormatCardNumberSpec` | src/app/payment-methods/page.jsx:125-129 | the displayed number is the digits in groups of four separated by spaces; dropping the spaces gives back the input without white space |
| `PaymentMethodsRoute.ChunkChars` | src/app/payment-methods/page.jsx:127 | every character of a group comes from the text |
| `PaymentMethodsRoute.CardNumberChanged` | src/app/payment-methods/page.jsx:131-136 | the number input takes the typed value without white space if it is at most 16 digits, otherwise nothing changes; a form of digits stays one |
| `PaymentMethodsRoute.CvvChanged` | src/app/payment-methods/page.jsx:138-143 | the CVV input takes at most three digits, otherwise nothing changes |
| `PaymentMethodsRoute.ExpiryMonthChanged` | src/app/payment-methods/page.jsx:231-236 | the month input takes at most two digits, otherwise nothing changes |
| `PaymentMethodsRoute.ExpiryYearChanged` | src/app/payment-methods/page.jsx:248-253 | the year input takes at most four digits, otherwise nothing changes |
| `PaymentMethodsRoute.Page.constructor` | src/app/payment-methods/page.jsx:25-52 | the page starts with the two initial cards, an empty form and the form closed |
| `PaymentMethodsRoute.Page.HandleAddCard` | src/app/payment-methods/page.jsx:61-104 | corrected id (`NewId`, see Findings): a refused form leaves everything and reports the message; an accepted one stores the new list, closes and empties the form |
| `PaymentMethodsRoute.Page.HandleSetDefault` | src/app/payment-methods/page.jsx:106-112 | the list becomes the one with that card as default; the form is untouched |
| `PaymentMethodsRoute.Page.HandleDelete` | src/app/payment-methods/page.jsx:114-123 | a refused delete leaves the list and reports the message; otherwise the list loses that card |
| `PaymentMethodsRoute.Page.HandleCardNumberChange` | src/app/payment-methods/page.jsx:131-136 | the form changes as the number filter says, nothing else |
| `PaymentMethodsRoute.Page.HandleCardHolderChange` | src/app/payment-methods/page.jsx:218 | the holder takes whatever is typed, nothing else changes |
| `PaymentMethodsRoute.Page.HandleExpiryMonthChange` | src/app/payment-methods/page.jsx:231-236 | the form changes as the month filter says, nothing else |
| `PaymentMethodsRoute.Page.HandleExpiryYearChange` | src/app/payment-methods/page.jsx:248-253 | the form changes as the year filter says, nothing else |
| `PaymentMethodsRoute.Page.HandleCvvChange` | src/app/payment-methods/page.jsx:138-143 | the form changes as the CVV filter says, nothing else |
| `PaymentMethodsRoute.Page.ToggleAddForm` | src/app/payment-methods/page.jsx:182 | the add button flips the form open or closed and changes nothing else |
| `PaymentMethodsPage.CardOf` | src/pages/PaymentMethodsPage.jsx:27-33 | a new card is a Visa stamped with the clock reading, with the holder, the expiry and the last four characters of the number |
| `PaymentMethodsPage.CardsAddedSpec` | src/pages/PaymentMethodsPage.jsx:23-35 | an add is ignored exactly when the number or holder is empty (expiry and CVC are not checked); otherwise exactly one card follows the unchanged list |
| `PaymentMethodsPage.CardsDeletedSpec` | src/pages/PaymentMethodsPage.jsx:41-44 | after a delete no card has that id, every other card stays, no card appears that was not there, an absent id changes nothing, and deleting twice is deleting once |
| `PaymentMethodsPage.Page.constructor` | src/pages/PaymentMethodsPage.jsx:14-16 | the page starts with the given cards, the form closed and empty |
| `PaymentMethodsPage.Page.HandleAddCard` | src/pages/PaymentMethodsPage.jsx:23-39 | an ignored add changes nothing; an accepted one stores the new list, closes and empties the form |
| `PaymentMethodsPage.Page.HandleDelete` | src/pages/PaymentMethodsPage.jsx:41-44 | the list loses the cards with that id; the form is untouched |
| `PaymentMethodsPage.Page.EditForm` | src/pages/PaymentMethodsPage.jsx:107-132 | the inputs store what is typed and change nothing else |
| `PaymentMethodsPage.Page.SetAdding` | src/pages/PaymentMethodsPage.jsx:136-144 | the open and cancel buttons set whether the form shows and change nothing else |
| `PaymentMethodsPage.Page.HandlePaySuccess` | src/pages/PaymentMethodsPage.jsx:51-54 | a successful payment empties the cart, so its total and item count are zero |
| `HomePage.FilteredMoviesSpec` | src/pages/HomePage.jsx:26-43 | the shown movies are, in their original order, exactly those of the selected genre (any for "all") whose title, description or genre contains the lower-cased query; a blank query filters nothing |
| `HomePage.UniqueGenresSpec` | src/pages/HomePage.jsx:54-55 | every genre of the fetched movies is listed exactly once, nothing else is, and in order of first appearance |
| `HomePage.DurationText` | src/pages/HomePage.jsx:67 | the label's length is the two numbers' lengths plus three |
| `HomePage.DurationTextReadsBack` | src/pages/HomePage.jsx:67 | `parseInt` of the label gives the hours, and of the text after "h " the minutes |
| `HomePage.FormatDurationSpec` | src/pages/HomePage.jsx:64-68 | the label reads back as the floored hours and the truncated remainder; for a non-negative duration they make it up with fewer than 60 minutes, and a negative one shows minutes between -59 and 0 |
| `MovieDetailsPage.GroupShowtimesByDate` | src/pages/MovieDetailsPage.jsx:183-193 | the grouping loop: the listed dates are the distinct dates, sorted ascending; exactly they have groups, and each group is the showtimes of that date in order |
| `MovieDetailsPage.DateGroupsSpec` | src/pages/MovieDetailsPage.jsx:183-193 | each showtime is in the group of its date and no other, in original order; a date without showtimes has no group; group sizes add up to the number of showtimes; no date is listed twice |
| `MovieDetailsPage.DateKeyFallback` | src/pages/MovieDetailsPage.jsx:186 | a non-empty camelCase date wins; the snake_case date counts when the camelCase one is absent |
| `MovieDetailsPage.DisabledAsWrittenMissesSoldOut` | src/pages/MovieDetailsPage.jsx:314 | as written, a camelCase record with 0 seats and no snake_case count is not disabled |
| `MovieDetailsPage.DisabledSpec` | src/pages/MovieDetailsPage.jsx:314 | corrected: a showtime whose present seat count is 0 is disabled under either naming, one with seats left is not, and elsewhere the fix agrees with the code as written |
| `MovieDetailsPage.BookingTargetSpec` | src/pages/MovieDetailsPage.jsx:160-166 | without a user the button leads to the login page with a return path to this movie; with one, to the booking page of the showtime, whose numeric id reads back from the path |
| `MyBookingsPage.OnLoad` | src/pages/MyBookingsPage.jsx:20-32 | without a user the page sends to the login page with a return path, and only then; with one it fetches that user's bookings |
| `MyBookingsPage.NewestFirstSpec` | src/pages/MyBookingsPage.jsx:40 | the sorted bookings are the same bookings, each as often, with later booking dates first |
| `MyBookingsPage.LookupSpec` | src/pages/MyBookingsPage.jsx:64-65 | a record whose id is the id's string form is found first, else one with the id itself; what is found has one of the two ids, and nothing is found only when no record has either |
| `MyBookingsPage.LookupNumericId` | src/pages/MyBookingsPage.jsx:64-65 | a numeric id finds a record stored with the id as a string |
| `MyBookingsPage.IsUpcomingSpec` | src/pages/MyBookingsPage.jsx:67-70 | a showtime missing its date or time is never upcoming, nor an unreadable booking date; otherwise a booking is upcoming exactly when its time is later than now |
| `MyBookingsPage.Page.constructor` | src/pages/MyBookingsPage.jsx:14-18 | the page holds the loaded bookings and no pending cancel |
| `MyBookingsPage.Page.HandleCancelClick` | src/pages/MyBookingsPage.jsx:72-74 | the clicked booking becomes the pending cancel; the list is untouched |
| `MyBookingsPage.Page.ConfirmCancel` | src/pages/MyBookingsPage.jsx:76-96 | nothing happens without a pending booking; otherwise the bookings with that id go when the server accepts, stay when it refuses, and the pending id is cleared either way |
| `MyBookingsPage.CancelledSpec` | src/pages/MyBookingsPage.jsx:85 | a cancel removes exactly the bookings with that id, and changes nothing when none has it |
| `MyBookingsRoute.OnSession` | src/app/my-bookings/page.jsx:41-50 | the bookings are fetched exactly when there is a user; the page sends to the login page exactly when the session is settled and has no user, and waits otherwise |
| `MyBookingsRoute.DetailsSpec` | src/app/my-bookings/page.jsx:69-90 | every booking keeps its place and data; a failed showtime request blanks that booking's showtime and movie only; a successful one attaches the showtime and its movie |
| `MyBookingsRoute.DetailsIndependent` | src/app/my-bookings/page.jsx:69-90 | a booking's details depend only on its own showtime request |
| `MyBookingsRoute.ToLowerIdempotent` | src/app/my-bookings/page.jsx:153 | lower-casing twice is lower-casing once |
| `MyBookingsRoute.StatusColorSpec` | src/app/my-bookings/page.jsx:152-162 | the colour ignores letter case; confirmed, cancelled and pending each get their own colour exactly for that status, and anything else, or none, is gray |
| `MyBookingsRoute.CanCancelSpec` | src/app/my-bookings/page.jsx:329 | a cancellable booking is shown green, but "Confirmed" in another case is shown green with no cancel button |
| `MyBookingsRoute.Page.constructor` | src/app/my-bookings/page.jsx:37-39 | nothing selected, the dialog closed, no cancel running |
| `MyBookingsRoute.Page.HandleCancelClick` | src/app/my-bookings/page.jsx:101-104 | the clicked booking is selected and the dialog opens |
| `MyBookingsRoute.Page.HandleCancelBooking` | src/app/my-bookings/page.jsx:106-136 | nothing happens without a selection; success closes the dialog and clears it; a failure keeps both and reports the server's message or the default one; no cancel is left running |
| `MyBookingsRoute.Page.CloseDialog` | src/app/my-bookings/page.jsx:381 | "Keep Booking" closes the dialog and keeps the selection |
| `AdminDashboardRoute.OnSessionAsWrittenDeniesPendingAdmin` | src/app/page.jsx:33-48 | as written, an administrator whose session is still loading is refused before the session says who they are; the corrected guard waits and then lets them in |
| `AdminDashboardRoute.OnSessionSpec` | src/app/page.jsx:33-48 | corrected guard: statistics load exactly for a loaded administrator; a loaded session without a user goes to login, one with another role is refused, nothing happens while loading; once loaded it agrees with the code as written |
| `AdminDashboardRoute.RevenueSpec` | src/app/page.jsx:73-75 | the revenue is the sum of the confirmed bookings' amounts and nothing else; it is 0 without confirmed bookings and never negative when no amount is |
| `AdminDashboardRoute.RevenueAfterCancel` | src/app/page.jsx:73-75 | cancelling a booking removes its amount from the revenue if it was confirmed and changes nothing otherwise |
| `AdminDashboardRoute.StatsOfSpec` | src/app/page.jsx:72-83 | the statistics are set exactly when the bookings body is a list; bookings and revenue come from it, an error body counts no movies or showtimes, and users are always 0 |
| `AdminDashboardRoute.DashboardSeesTenNewest` | src/app/page.jsx:67 | the bookings are requested without a limit, so the route's default page holds at most the 10 newest: the dashboard counts only those |
| `AdminDashboardRoute.Page.constructor` | src/app/page.jsx:24-31 | all statistics 0 and the spinner on |
| `AdminDashboardRoute.Page.FinishFetch` | src/app/page.jsx:50-89 | the statistics are replaced when they could be computed and kept otherwise; the spinner stops either way |
| `AdminPage.OnUser` | src/pages/AdminPage.jsx:23-29 | the dashboard loads exactly for a signed-in administrator; anyone else is sent home |
| `AdminPage.RevenueSpec` | src/pages/AdminPage.jsx:43 | when every price is a number or missing, the revenue is the sum of the prices with a missing one counting 0, never negative when no price is |
| `AdminPage.RevenueTextSticks` | src/pages/AdminPage.jsx:43 | once the running sum has become text it stays text |
| `AdminPage.TextPriceMakesText` | src/pages/AdminPage.jsx:43 | a booking priced with non-empty text turns the revenue into text |
| `AdminPage.RecentBookingsSpec` | src/pages/AdminPage.jsx:52 | the recent list is the last five bookings (all when fewer), newest first |
| `AdminPage.Page.constructor` | src/pages/AdminPage.jsx:13-21 | all figures 0, empty lists, the spinner on |
| `AdminPage.Page.FinishFetch` | src/pages/AdminPage.jsx:31-60 | the counts are the lengths, the revenue the sum of prices, the recent list the last five newest first, the movies kept for the table, and the spinner stops |
| `AdminPage.Page.FailFetch` | src/pages/AdminPage.jsx:55-59 | a failed request stops the spinner and keeps every figure |
| `ProductRoute.AddedOnce` | src/store/slices/cartSlice.js:20-34 | one add keeps the product's unit price, raises its quantity by one, and leaves other products alone |
| `ProductRoute.AddedTimesSpec` | src/app/products/page.jsx:33-37 | adding `n` units raises the item count by `n`, the total by `n` times the unit price and the product's quantity by `n`, leaves other products alone, and keeps ids unique and quantities positive |
| `ProductRoute.AddUnits` | src/app/products/page.jsx:34-36 | the loop dispatches one add per unit, none for a non-positive count |
| `ProductRoute.FindProduct` | src/app/products/page.jsx:20-31 | a found product is in the catalogue with the number the path reads as; an unreadable path finds nothing; a path naming a catalogue id finds a product |
| `ProductRoute.FindProductById` | src/app/products/page.jsx:20 | the path of a catalogue product finds a product with that id |
| `ProductRoute.RelatedProductsSpec` | src/app/products/page.jsx:39-41 | at most four suggestions, each from the catalogue, of the same category and not the product; the first such in catalogue order, and fewer than four only when there are no more |
| `ProductRoute.Page.constructor` | src/app/products/page.jsx:18 | the quantity starts at 1 |
| `ProductRoute.Page.Decrement` | src/app/products/page.jsx:124 | the minus button lowers the quantity by one but not below 1 |
| `ProductRoute.Page.Increment` | src/app/products/page.jsx:132 | the plus button raises the quantity by one |
| `ProductRoute.Page.HandleAddToCart` | src/app/products/page.jsx:33-37 | the cart gets the chosen number of units, so its item count rises by that number |
| `ProductDetailsPage.Page.constructor` | src/pages/ProductDetailsPage.jsx:16-18 | no product, the spinner on, quantity 1 |
| `ProductDetailsPage.Page.FinishFetch` | src/pages/ProductDetailsPage.jsx:24-37 | a fetched product is shown; a failed request keeps the product and leads back to the list; the spinner stops and the quantity stays |
| `ProductDetailsPage.Page.Decrement` | src/pages/ProductDetailsPage.jsx:129-130 | the minus button lowers the quantity by one and does nothing at 1 |
| `ProductDetailsPage.Page.Increment` | src/pages/ProductDetailsPage.jsx:139-140 | the plus button raises the quantity by one and does nothing at the stock, so it never passes the stock |
| `ProductDetailsPage.Page.HandleAddToCart` | src/pages/ProductDetailsPage.jsx:39-69 | nothing is added without a product or when it is out of stock; otherwise the chosen number of units, raising the item count and the product's quantity by that number |
| `Auth.WithoutPassword` | src/hooks/useAuth.jsx:27-28 | the signed-in user keeps the record's id, name, email and role, and has no password |
| `Auth.FindCredentialsSpec` | src/hooks/useAuth.jsx:24 | a match exists exactly when some record has both that email and that password, and it is the first such record |
| `Auth.RegisterThenLogin` | src/hooks/useAuth.jsx:18-73 | after an accepted registration is stored after the others, a login with the same email and password signs in exactly the registered user with the role "user" |
| `Auth.Provider.constructor` | src/hooks/useAuth.jsx:6-7 | nobody signed in, loading, with whatever local storage holds |
| `Auth.Provider.Restore` | src/hooks/useAuth.jsx:9-16 | a saved user is signed in again; loading ends either way |
| `Auth.Provider.Login` | src/hooks/useAuth.jsx:18-38 | the first record with both credentials is signed in without its password and saved; none gives "Invalid credentials", an unreadable list "Login failed", and a failed login changes nothing |
| `Auth.Provider.Register` | src/hooks/useAuth.jsx:40-73 | a taken email is refused with "User already exists" and nothing is posted; otherwise a record with role "user" is posted and the result follows the server; an unreadable list gives "Registration failed" |
| `Auth.Provider.Logout` | src/hooks/useAuth.jsx:75-78 | nobody is signed in and nothing is saved |
| `VisualEdits.ParsedOrchidsId` | src/visual-edits/VisualEditsMessenger.jsx:91-104 | an id with fewer than three colon-separated parts gives no location |
| `VisualEdits.ParseOrchidsId` | src/visual-edits/VisualEditsMessenger.jsx:91-104 | popping the column and then the line off the split parts gives the location the specification function reads |
| `VisualEdits.ParsedOrchidsIdOfParts` | src/visual-edits/VisualEditsMessenger.jsx:91-104 | for any path, however many colons it holds, followed by line and column parts without colons: nothing exactly when `parseInt` cannot read the line or column (an empty part reads as 0), else the path whole with the two numbers |
| `VisualEdits.ParsedOrchidsIdRoundTrip` | src/visual-edits/VisualEditsMessenger.jsx:91-104 | `path:line:column` reads back as that location |
| `VisualEdits.ParsedOrchidsIdEmptyParts` | src/visual-edits/VisualEditsMessenger.jsx:96-97 | empty line and column parts read as line 0, column 0 |
| `VisualEdits.ExtractDirectTextContent` | src/visual-edits/VisualEditsMessenger.jsx:80-88 | the loop's text is the concatenated content of the text nodes among the children |
| `VisualEdits.DirectTextAppend` | src/visual-edits/VisualEditsMessenger.jsx:80-88 | the own text of two runs of children is the first's followed by the second's |
| `VisualEdits.DirectTextNodes` | src/visual-edits/VisualEditsMessenger.jsx:82-85 | other nodes add nothing, a text node adds its content |
| `VisualEdits.NewlinesEscaped` | src/visual-edits/VisualEditsMessenger.jsx:240 | the escaped text holds no raw line break |
| `VisualEdits.TemplateEscaped` | src/visual-edits/VisualEditsMessenger.jsx:238-245 | the corrected escape leaves no raw line break |
| `VisualEdits.TemplateEscapedReadsBack` | src/visual-edits/VisualEditsMessenger.jsx:238-245 | the corrected escape, read as a template literal, gives back the text |
| `VisualEdits.WrapMultilineSpec` | src/visual-edits/VisualEditsMessenger.jsx:238-245 | text without a line break is left alone; text with one is wrapped in a template literal that holds no raw line break and reads back as the text |
| `VisualEdits.NewlinesEscapedAgrees` | src/visual-edits/VisualEditsMessenger.jsx:238-245 | on text with no backslash, backquote or dollar sign the code as written and the corrected escape agree |
| `VisualEdits.WrapMultilineAsWrittenMisreads` | src/visual-edits/VisualEditsMessenger.jsx:240 | as written, a backslash followed by `n` reads back as a second line break, and a backquote ends the literal early |
| `VisualEdits.ToLowerAppend` | src/visual-edits/VisualEditsMessenger.jsx:518 | lower-casing distributes over concatenation |
| `VisualEdits.CssPropertySpec` | src/visual-edits/VisualEditsMessenger.jsx:518 | the CSS name has no capital letter, is one character longer per capital, and for a name without dashes turns back into it |
| `VisualEdits.NormalizeValueSpec` | src/visual-edits/VisualEditsMessenger.jsx:111-183 | zero padding and margin read "0", every transparent background "transparent", a readable font weight its integer's text and an empty one "400", and a property handled by no rule keeps its value |
| `VisualEdits.FontWeightStable` | src/visual-edits/VisualEditsMessenger.jsx:143-149 | normalising a font weight twice is normalising it once |
| `VisualEdits.Messenger.constructor` | src/visual-edits/VisualEditsMessenger.jsx:12 | no message remembered and nothing posted |
| `VisualEdits.Messenger.PostMessageDedup` | src/visual-edits/VisualEditsMessenger.jsx:13-22 | one send posts what the deduplication says and remembers its key |
| `VisualEdits.DedupSpec` | src/visual-edits/VisualEditsMessenger.jsx:13-22 | at most one post per send; the remembered key is the last post's text; no two consecutive posts share a text; the first post differs from the key before; with no post the key stays |
| `VisualEdits.DedupKept` | src/visual-edits/VisualEditsMessenger.jsx:13-22 | the messages posted are exactly those whose text differs from the text of the message sent just before (the remembered key for the first), in order; the remembered key is the text of the last message sent |
| `VisualEdits.DedupRepeat` | src/visual-edits/VisualEditsMessenger.jsx:13-22 | the same message sent twice in a row is posted at most once and its text is remembered |
| `VisualEdits.MergedSpec` | src/visual-edits/VisualEditsMessenger.jsx:556-557 | a new value wins over the recorded one, a recorded property not changed is kept, and nothing else is recorded |
| `VisualEdits.StyleRecorder.constructor` | src/visual-edits/VisualEditsMessenger.jsx:281-282 | nothing recorded and no change flagged |
| `VisualEdits.StyleRecorder.HandleStyleChange` | src/visual-edits/VisualEditsMessenger.jsx:502-566 | nothing for an element without a parseable id; otherwise its record takes the new values, the change is flagged, and other records stay |

## Left out

- Rendering, styling, toasts, navigation side effects and React hook wiring: the model keeps the state each handler leaves and the effect it chooses (fetch, redirect, wait), not the screen.
- `fetch`, `NextResponse` and the drizzle API: routes work on in-memory tables, and fetched data and server answers are parameters.
- The database driver's behaviour is assumed where the routes depend on it, because the database module is not part of this model:
  - a NaN bound in a filter matches nothing;
  - `.set({})` fails (a 500);
  - null written to a NOT NULL column fails (a 500);
  - `.trim()` on a non-string throws (a 500);
  - foreign keys are not enforced;
  - a negative `LIMIT` means no limit and a negative `OFFSET` means 0, as in SQLite.
- Rows that tie on every `ORDER BY` column: SQL leaves their order unspecified, but the model's stable sort (`Sorting.SortBy`) keeps them in table order. For example, two showtimes with the same date and time come back in insertion order. The list functions therefore fix an order the database does not promise. The ordering, membership and permutation properties stated about them hold for any order of tied rows.
- SQL `LIKE`: matched as an ASCII case-insensitive substring; `%` and `_` inside the search text are not read as wildcards.
- `MoviesApi.ListSpec`: a `limit` or `offset` that `parseInt` cannot read (NaN reaching `Math.min` and the query) is excluded by its precondition, because what the driver does with a NaN limit is not part of this model.
- `FoodItemsApi.ListSpec`: same NaN `limit`/`offset` exclusion.
- `ShowtimesApi.ListSpec`: same NaN `limit`/`offset` exclusion.
- `ShowtimesApi.ListComplete`: same NaN `limit`/`offset` exclusion.
- `BookingsAllApi.GetSpec`: same NaN `limit`/`offset` exclusion.
- `MoviesApi.ListComplete`: same NaN `limit`/`offset` exclusion.
- `FoodItemsApi.ListComplete`: same NaN `limit`/`offset` exclusion.
- `Store.ListLimit`: same NaN exclusion.
- `Store.CappedLimit`: same NaN exclusion.
- `Store.CappedPageAtMost100`: same NaN exclusion.
- `JsLib.ParseInt`: it reads base 10 only. JavaScript's `parseInt` without a radix reads a `0x` or `0X` prefix as hexadecimal: `parseInt("0x10")` is 16, but 0 here. The ids and page parameters the routes read are decimal.
- `JsLib.StringToNumber`: after trimming it accepts only an optional sign and decimal digits. The forms `Number` also reads are not modelled: a decimal point, an exponent, `Infinity`, and the `0x`, `0o` and `0b` prefixes.
- `ProductRoute.FindProduct`: it inherits that narrowness. A route `id` of `1.0` or `1e0` finds product 1 in the code but nothing in the model.
- `BookingPage.ConfirmBookingSpec`: it prices each food line with the corrected lookup, which compares the key with the id's text, not with `f.id === itemId`. The two agree on menus with string ids (`BookingPage.PriceAgreesOnStringIds`). They differ for numeric ids, as the Findings table shows (`BookingPage.FoodTotalAsWrittenExample`).
- `BookingPage.FoodTotalOne`: it states the corrected total. The written total is `BookingPage.FoodTotalAsWritten`, and the two agree on string ids (`BookingPage.FoodTotalAgreesOnStringIds`).
- `PaymentMethodsRoute.Page.HandleAddCard`: it gives a new card `NewId`, one more than the largest id in use, not `paymentMethods.length + 1`. The written rule is `PaymentMethodsRoute.AddedAsWrittenDuplicates`. The page's unique-id invariant holds only with the correction.
- `SeatsApi.PutChangesOnlyBookingFields`: a `bookingId` must be a number, null or absent. How the driver stores a string or boolean there is not part of this model.
- `SeatsApi.PutErrors`: same `bookingId` typing precondition.
- `SeatsApi.PutHandler`: same `bookingId` typing precondition.
- `MyBookingsPage.NewestFirstSpec`: every booking date must parse. JavaScript's comparison of two NaN dates is not modelled.
- `MoviesApi.PatchOf`: its own contract states only that building the update stops with an error response. What the update holds is stated by `MoviesApi.LeadingUpdatesSpec` and `MoviesApi.TrailingUpdatesSpec`.
- `MoviesApi.Updated`: its own contract states only that it stops with an error response. The row it gives is stated by `MoviesApi.ApplySpec` and `MoviesApi.UpdatedSpec`.
- `VisualEdits.NormalizeValueSpec`: it restates four rules: padding and margin, background colour, font weight, and the pass-through. The other seven named rules (background image, text decoration, font style, opacity, border radius, letter spacing, gap) are in `NormalizeValue` but no lemma restates them.
- `VisualEdits.ParsedOrchidsId`: its own contract covers only the fewer-than-three-parts case. The full reading is `VisualEdits.ParsedOrchidsIdOfParts`.
- Prices and amounts are integers, as the schema declares them. Floating-point money is not modelled: `toFixed(2)`, the cart page's tax and shipping, and random seed prices.
- Concurrency: each `Promise.all` fan-out and each async handler is one sequential step.
- `localStorage`:
  - it is a field or a constructor parameter where it is read (the saved cart, the saved user);
  - the JSON round trip through it is taken to give back the same value;
  - the cart's writes to it are not modelled.
- `Object.keys` order for snack maps is taken as the map's own order (a sequence of keys) where a sum or a display walks it. The booking payload's food lines are keyed by item id, and their order in the JSON array is not modelled.
- A missing payment method is the empty string.
- `toLowerCase` lower-cases ASCII letters only; string comparison in `sort()` is by character code, without UTF-16 surrogate handling.
- The mock JSON-server records (users, bookings, movies, showtimes, products): fields the logic does not read are not modelled, and fields it reads loosely are `JsValue`s.
- Simulated delays (`setTimeout`) and the two-second payment promise are left out; only the success action is modelled.
- `TemplateValue`, the reader used to state what a template literal gives back, knows the escapes `\n`, `\\`, `` \` `` and `\$`. Other escape sequences are outside it.
- The DOM part of `handleStyleChange` is not modelled: querying matching elements, `setProperty`/`removeProperty`, and the focus-box update. The same goes for `getComputedStyle`, fonts, `contentEditable` handling, timers, `window.postMessage` delivery and URL normalisation.
- `AdminPage`: a revenue that has become text (string concatenation) is `None`; the text itself is not modelled.
- The product gallery's selected image on the product page is rendering state and is not modelled.
- The booking creation and cancellation endpoints called by the pages are not part of this model. Their outcome is a parameter.
- `VisualEdits.Dedup`: a `JSON.stringify` that gives no text is read as one that throws, so the message is posted and the last key stays. In JavaScript, `JSON.stringify(undefined)` returns `undefined` without throwing, which is then remembered as the last key, so a second `undefined` would be dropped. The messages the bridge sends are always objects.
- `MovieDetailsPage.GroupShowtimesByDate`: the groups are a map. The source keeps them in a plain object, where a date key that names an `Object.prototype` member (such as `constructor`) finds an inherited value, and the `push` onto it throws. Show dates never take such values.

## Findings

| source | as written | input that shows it | evidently intended | confidence | as-written member | corrected member |
|---|---|---|---|---|---|---|
| src/app/payment-methods/page.jsx:79 | a new card's id is the number of cards plus one | start with cards 1 and 2, add a card (id 3), delete card 2, add another: it also gets id 3, and setting 3 as default marks two cards | an id not already in use | not executed | `PaymentMethodsRoute.AddedAsWrittenExample` | `PaymentMethodsRoute.AddedSpec` |
| src/pages/MovieDetailsPage.jsx:314 | disabled when `(availableSeats \|\| available_seats) === 0` | `{availableSeats: 0}` with no snake_case field: `0 \|\| undefined` is `undefined`, so the sold-out showtime stays enabled | disabled when the present seat count is 0 | not executed | `MovieDetailsPage.DisabledAsWrittenMissesSoldOut` | `MovieDetailsPage.DisabledSpec` |
| src/app/page.jsx:39-43 | the role check runs while the session is still loading | an administrator whose session is pending is told access is denied and sent to "/" | wait until the session has loaded | not executed | `AdminDashboardRoute.OnSessionAsWrittenDeniesPendingAdmin` | `AdminDashboardRoute.OnSessionSpec` |
| src/app/api/movies/route.js:42 | `Math.min(parseInt(limit), 100)` caps only from above | `?limit=-1`: the page size is -1, which SQLite reads as no limit, so every row comes back | at most 100 rows per page | not executed | `Store.NegativeListLimitLiftsCap` | `Store.CappedPageAtMost100` |
| src/pages/BookingPage.jsx:101-104 | a food key (a string) is compared with `===` to the item's numeric id | item 1 priced 5, two chosen: the snacks cost 0 instead of 10 | compare the key with the id's text | not executed | `BookingPage.FoodTotalAsWrittenExample` | `BookingPage.FoodTotalOne` |
| src/visual-edits/VisualEditsMessenger.jsx:240 | only line breaks are escaped before wrapping in a template literal | the text `\n` followed by a line break reads back as two line breaks; a backquote ends the literal early | the wrapped literal reads back as the text | not executed | `VisualEdits.WrapMultilineAsWrittenMisreads` | `VisualEdits.WrapMultilineSpec` |
