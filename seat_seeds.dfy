/**
 * The two seat seeders (`src/db/seeds/seats.js` and `src/db/seeds/seats.ts`). Both give every
 * showtime 80 seats, rows A to H with seats 1 to 10, unbooked. The JavaScript one first deletes
 * every seat, names a seat by row and number ("C7") and inserts one showtime at a time; the
 * TypeScript one does nothing when there is no showtime, names a seat by its number alone,
 * stamps each seat with its own clock reading, and inserts in batches of 500.
 */
module SeatSeeds {
  import opened JsLib
  import opened Schema
  import opened Store

  const Rows: seq<string> := ["A", "B", "C", "D", "E", "F", "G", "H"]
  const SeatsPerRow: nat := 10
  const BatchSize: nat := 500

  /** Where a seat is: its showtime, its row and its seat number. */
  datatype Place = Place(showtimeId: int, row: string, seatNumber: string)

  /** A seat object as the seeder builds it, before the database gives it an id. */
  datatype Draft = Draft(place: Place, createdAt: string)

  /** `${row}${seatNum}`. */
  function JsLabel(row: string, n: nat): string { row + NatToString(n) }

  /** `seatNum.toString()`. */
  function TsLabel(row: string, n: nat): string { NatToString(n) }

  /** Seats 1 to `count` of one row. */
  function RowPlaces(showtimeId: int, row: string, count: nat, name: (string, nat) -> string): (ps: seq<Place>)
    ensures |ps| == count
  {
    if count == 0 then [] else RowPlaces(showtimeId, row, count - 1, name) + [Place(showtimeId, row, name(row, count))]
  }

  /** The seats of the first `rowCount` rows of one showtime. */
  function ShowtimePlaces(showtimeId: int, rowCount: nat, name: (string, nat) -> string): (ps: seq<Place>)
    requires rowCount <= |Rows|
    ensures |ps| == rowCount * SeatsPerRow
  {
    if rowCount == 0 then []
    else ShowtimePlaces(showtimeId, rowCount - 1, name) + RowPlaces(showtimeId, Rows[rowCount - 1], SeatsPerRow, name)
  }

  /** The seats of every showtime, in showtime order, 80 apiece. */
  function Layout(ids: seq<int>, name: (string, nat) -> string): (ps: seq<Place>)
    ensures |ps| == 80 * |ids|
  {
    if ids == [] then [] else Layout(ids[..|ids| - 1], name) + ShowtimePlaces(ids[|ids| - 1], |Rows|, name)
  }

  /** The showtime ids, in table order. */
  function Ids(showtimes: seq<Showtime>): (ids: seq<int>)
    ensures |ids| == |showtimes| && forall k :: 0 <= k < |ids| ==> ids[k] == showtimes[k].id
  {
    seq(|showtimes|, k requires 0 <= k < |showtimes| => showtimes[k].id)
  }

  /** The drafts for `ps`, the k-th stamped with `clock(from + k)`. */
  function Drafts(ps: seq<Place>, clock: nat -> string, from: nat): (ds: seq<Draft>)
    ensures |ds| == |ps| && forall k :: 0 <= k < |ds| ==> ds[k] == Draft(ps[k], clock(from + k))
  {
    seq(|ps|, k requires 0 <= k < |ps| => Draft(ps[k], clock(from + k)))
  }

  /** A seat row from a draft: not booked, no booking. */
  function SeatOf(d: Draft, id: int): Seat {
    Seat(id, d.place.showtimeId, d.place.seatNumber, d.place.row, false, None, d.createdAt)
  }

  /** `db.insert(seats).values(ds)`: the drafts get consecutive ids from the counter. */
  function InsertDrafts(t: Table<Seat>, ds: seq<Draft>): (r: Table<Seat>)
    ensures r.nextId == t.nextId + |ds| && |r.rows| == |t.rows| + |ds| && r.rows[..|t.rows|] == t.rows
    ensures forall k :: 0 <= k < |ds| ==> r.rows[|t.rows| + k] == SeatOf(ds[k], t.nextId + k)
  {
    Table(t.rows + seq(|ds|, k requires 0 <= k < |ds| => SeatOf(ds[k], t.nextId + k)), t.nextId + |ds|)
  }

  // ---------------------------------------------------------------------------
  // Properties of the layout

  /** Seat `n` of a row is at position `n - 1`. */
  lemma {:induction false} RowPlacesAt(showtimeId: int, row: string, count: nat, name: (string, nat) -> string, n: nat)
    requires 1 <= n <= count
    ensures RowPlaces(showtimeId, row, count, name)[n - 1] == Place(showtimeId, row, name(row, n))
  {
    if n < count {
      RowPlacesAt(showtimeId, row, count - 1, name, n);
    }
  }

  /** Seat `n` of row `r` of a showtime is at position `10 r + n - 1`. */
  lemma {:induction false} ShowtimePlacesAt(showtimeId: int, rowCount: nat, name: (string, nat) -> string, r: nat, n: nat)
    requires rowCount <= |Rows| && r < rowCount && 1 <= n <= SeatsPerRow
    ensures ShowtimePlaces(showtimeId, rowCount, name)[SeatsPerRow * r + n - 1] == Place(showtimeId, Rows[r], name(Rows[r], n))
  {
    if r < rowCount - 1 {
      ShowtimePlacesAt(showtimeId, rowCount - 1, name, r, n);
    } else {
      RowPlacesAt(showtimeId, Rows[r], SeatsPerRow, name, n);
    }
  }

  /**
   * The layout in full: seat `n` (1 to 10) of row `r` (0 to 7, "A" to "H") of the `i`-th
   * showtime is at position `80 i + 10 r + n - 1`, and those positions cover the layout.
   */
  lemma {:induction false} LayoutAt(ids: seq<int>, name: (string, nat) -> string, i: nat, r: nat, n: nat)
    requires i < |ids| && r < |Rows| && 1 <= n <= SeatsPerRow
    ensures Layout(ids, name)[80 * i + SeatsPerRow * r + n - 1] == Place(ids[i], Rows[r], name(Rows[r], n))
  {
    var init := ids[..|ids| - 1];
    if i < |ids| - 1 {
      assert init[i] == ids[i];
      LayoutAt(init, name, i, r, n);
    } else {
      ShowtimePlacesAt(ids[i], |Rows|, name, r, n);
    }
  }

  /** The JavaScript labels tell every seat of a showtime apart: "A1" to "H10" are all different. */
  lemma JsLabelsDistinct(r1: nat, n1: nat, r2: nat, n2: nat)
    requires r1 < |Rows| && r2 < |Rows|
    requires JsLabel(Rows[r1], n1) == JsLabel(Rows[r2], n2)
    ensures r1 == r2 && n1 == n2
  {
    assert JsLabel(Rows[r1], n1)[0] == Rows[r1][0];
    assert JsLabel(Rows[r2], n2)[0] == Rows[r2][0];
    assert NatToString(n1) == JsLabel(Rows[r1], n1)[1..];
    assert NatToString(n2) == JsLabel(Rows[r2], n2)[1..];
    DigitsValueOfNatToString(n1);
    DigitsValueOfNatToString(n2);
  }

  /** The TypeScript labels repeat across rows: seat numbers are unique only together with the row. */
  lemma TsLabelsRepeat(r1: nat, r2: nat, n: nat)
    requires r1 < |Rows| && r2 < |Rows|
    ensures TsLabel(Rows[r1], n) == TsLabel(Rows[r2], n)
    ensures Place(0, Rows[r1], TsLabel(Rows[r1], n)) == Place(0, Rows[r2], TsLabel(Rows[r2], n)) <==> r1 == r2
  {
  }

  lemma DraftsAppend(a: seq<Place>, b: seq<Place>, clock: nat -> string, from: nat)
    ensures Drafts(a + b, clock, from) == Drafts(a, clock, from) + Drafts(b, clock, from + |a|)
  {
  }

  /** Inserting two lists of drafts one after the other is inserting them together. */
  lemma InsertDraftsAppend(t: Table<Seat>, a: seq<Draft>, b: seq<Draft>)
    ensures InsertDrafts(InsertDrafts(t, a), b) == InsertDrafts(t, a + b)
  {
    var lhs, rhs := InsertDrafts(InsertDrafts(t, a), b), InsertDrafts(t, a + b);
    assert lhs.rows == rhs.rows by {
      forall k | 0 <= k < |lhs.rows| ensures lhs.rows[k] == rhs.rows[k] {
        if k < |t.rows| {
          assert lhs.rows[k] == InsertDrafts(t, a).rows[..|t.rows|][k];
        } else if k < |t.rows| + |a| {
          assert lhs.rows[k] == InsertDrafts(t, a).rows[k];
        }
      }
    }
  }

  // ---------------------------------------------------------------------------
  // The seeders

  /**
   * The inner two loops of both seeders: push the seats of rows A to H, seats 1 to 10, of one
   * showtime onto `seats`, the k-th seat of the list stamped with `clock(k)`.
   */
  method PushShowtimeSeats(seats: seq<Draft>, showtimeId: int, name: (string, nat) -> string, clock: nat -> string)
    returns (out: seq<Draft>)
    ensures out == seats + Drafts(ShowtimePlaces(showtimeId, |Rows|, name), clock, |seats|)
  {
    out := seats;
    for r := 0 to |Rows|
      invariant out == seats + Drafts(ShowtimePlaces(showtimeId, r, name), clock, |seats|)
    {
      var row := Rows[r];
      var done := ShowtimePlaces(showtimeId, r, name);
      for seatNum := 1 to SeatsPerRow + 1
        invariant out == seats + Drafts(done + RowPlaces(showtimeId, row, seatNum - 1, name), clock, |seats|)
      {
        var place := Place(showtimeId, row, name(row, seatNum));
        PushSeatStep(seats, done, showtimeId, row, seatNum, name, clock, out);
        out := out + [Draft(place, clock(|out|))];
      }
      assert done + RowPlaces(showtimeId, row, SeatsPerRow, name) == ShowtimePlaces(showtimeId, r + 1, name);
    }
  }

  /** Pushing seat `seatNum` of a row extends the drafts by that seat, stamped with the next clock reading. */
  lemma PushSeatStep(seats: seq<Draft>, done: seq<Place>, showtimeId: int, row: string, seatNum: nat,
                     name: (string, nat) -> string, clock: nat -> string, out: seq<Draft>)
    requires seatNum >= 1
    requires out == seats + Drafts(done + RowPlaces(showtimeId, row, seatNum - 1, name), clock, |seats|)
    ensures out + [Draft(Place(showtimeId, row, name(row, seatNum)), clock(|out|))]
         == seats + Drafts(done + RowPlaces(showtimeId, row, seatNum, name), clock, |seats|)
  {
    var place := Place(showtimeId, row, name(row, seatNum));
    var before := done + RowPlaces(showtimeId, row, seatNum - 1, name);
    DraftsAppend(before, [place], clock, |seats|);
    assert done + RowPlaces(showtimeId, row, seatNum, name) == before + [place];
    assert Drafts([place], clock, |seats| + |before|) == [Draft(place, clock(|out|))];
  }

  /**
   * `seats.js`: delete every seat, then for each showtime push its 80 seats and insert them.
   * Returns `totalSeatsCreated`. Every seat carries the one timestamp `now`.
   */
  method SeedJs(db: Db, now: string) returns (totalSeatsCreated: nat)
    modifies db`seats
    ensures db.seats == InsertDrafts(Table([], old(db.seats.nextId)), Drafts(Layout(Ids(db.showtimes.rows), JsLabel), _ => now, 0))
    ensures totalSeatsCreated == 80 * |db.showtimes.rows|
  {
    db.seats := Table([], db.seats.nextId);
    var start := db.seats;
    var allShowtimes := db.showtimes.rows;
    var ids := Ids(allShowtimes);
    var stamp: nat -> string := _ => now;
    totalSeatsCreated := 0;
    for i := 0 to |allShowtimes|
      invariant db.seats == InsertDrafts(start, Drafts(Layout(ids[..i], JsLabel), stamp, 0))
      invariant totalSeatsCreated == 80 * i
    {
      var showtimeSeats := PushShowtimeSeats([], allShowtimes[i].id, JsLabel, stamp);
      var before := Layout(ids[..i], JsLabel);
      assert ids[..i + 1][..i] == ids[..i];
      DraftsAppend(before, ShowtimePlaces(ids[i], |Rows|, JsLabel), stamp, 0);
      assert showtimeSeats == Drafts(ShowtimePlaces(ids[i], |Rows|, JsLabel), stamp, |before|);
      InsertDraftsAppend(start, Drafts(before, stamp, 0), showtimeSeats);
      db.seats := InsertDrafts(db.seats, showtimeSeats);
      totalSeatsCreated := totalSeatsCreated + |showtimeSeats|;
    }
    assert ids[..|allShowtimes|] == ids;
  }

  /** `Math.ceil(n / 500)`. */
  function BatchCount(n: nat): nat { (n + BatchSize - 1) / BatchSize }

  /**
   * The batch loop of `seats.ts`: insert `seats.slice(i, i + 500)` for `i = 0, 500, ...`.
   * Together the batches insert every seat in order; all are full but the last, which is not
   * empty; there are `ceil(n / 500)` of them.
   */
  method InsertInBatches(db: Db, seats: seq<Draft>) returns (batchSizes: seq<nat>)
    modifies db`seats
    ensures db.seats == InsertDrafts(old(db.seats), seats)
    ensures |batchSizes| == BatchCount(|seats|)
    ensures forall b :: 0 <= b < |batchSizes| ==> 0 < batchSizes[b] <= BatchSize
    ensures forall b :: 0 <= b < |batchSizes| - 1 ==> batchSizes[b] == BatchSize
    ensures SumOf<nat>(batchSizes, (y: nat) => y) == |seats|
  {
    batchSizes := [];
    var n := |seats|;
    var start := db.seats;
    var i := 0;
    assert seats[..0] == [];
    while i < n
      invariant BatchesCover(batchSizes, i, n)
      invariant db.seats == InsertDrafts(start, seats[..Min(i, n)])
      decreases n - i
    {
      var end := Min(i + BatchSize, n);
      var batch := seats[i..end];
      InsertBatchStep(start, seats, i, end);
      db.seats := InsertDrafts(db.seats, batch);
      BatchStep(batchSizes, i, n);
      batchSizes := batchSizes + [|batch|];
      i := i + BatchSize;
    }
    assert seats[..n] == seats;
    if n > 0 {
      BatchCountOf(n, |batchSizes|);
    }
  }

  /** After the batches starting below `i`: sizes, fullness and the running total of a prefix of `n` items. */
  ghost predicate BatchesCover(sizes: seq<nat>, i: int, n: nat) {
    && i == BatchSize * |sizes|
    && (forall b :: 0 <= b < |sizes| ==> 0 < sizes[b] <= BatchSize)
    && (forall b :: 0 <= b < |sizes| - 1 ==> sizes[b] == BatchSize)
    && (i <= n ==> forall b :: 0 <= b < |sizes| ==> sizes[b] == BatchSize)
    && (|sizes| > 0 ==> i - BatchSize < n)
    && SumOf<nat>(sizes, (y: nat) => y) == Min(i, n)
  }

  /** One more batch, `slice(i, i + 500)`, keeps the batch bookkeeping. */
  lemma BatchStep(sizes: seq<nat>, i: int, n: nat)
    requires BatchesCover(sizes, i, n) && 0 <= i < n
    ensures BatchesCover(sizes + [Min(i + BatchSize, n) - i], i + BatchSize, n)
  {
    var x: nat := Min(i + BatchSize, n) - i;
    TotalPush(sizes, x);
    var after := sizes + [x];
    forall b | 0 <= b < |after| ensures 0 < after[b] <= BatchSize {
      if b < |sizes| {
        assert after[b] == sizes[b];
      }
    }
    forall b | 0 <= b < |after| - 1 ensures after[b] == BatchSize {
      assert after[b] == sizes[b];
    }
  }

  /** Inserting the slice `[i, end)` after the first `i` items inserts the first `end`. */
  lemma InsertBatchStep(start: Table<Seat>, seats: seq<Draft>, i: nat, end: nat)
    requires i <= end <= |seats|
    ensures InsertDrafts(InsertDrafts(start, seats[..i]), seats[i..end]) == InsertDrafts(start, seats[..end])
  {
    InsertDraftsAppend(start, seats[..i], seats[i..end]);
    assert seats[..i] + seats[i..end] == seats[..end];
  }

  /**
   * `seats.ts`: with no showtime, return and change nothing; otherwise collect the 80 seats of
   * every showtime, the k-th stamped with `clock(k)`, and insert them in batches of 500.
   * Returns the size of each batch inserted.
   */
  method SeedTs(db: Db, clock: nat -> string) returns (batchSizes: seq<nat>)
    modifies db`seats
    ensures |db.showtimes.rows| == 0 ==> db.seats == old(db.seats) && batchSizes == []
    ensures db.seats == InsertDrafts(old(db.seats), Drafts(Layout(Ids(db.showtimes.rows), TsLabel), clock, 0))
    ensures |batchSizes| == BatchCount(80 * |db.showtimes.rows|)
    ensures forall b :: 0 <= b < |batchSizes| ==> 0 < batchSizes[b] <= BatchSize
    ensures forall b :: 0 <= b < |batchSizes| - 1 ==> batchSizes[b] == BatchSize
    ensures SumOf<nat>(batchSizes, (y: nat) => y) == 80 * |db.showtimes.rows|
  {
    var allShowtimes := db.showtimes.rows;
    var ids := Ids(allShowtimes);
    if |allShowtimes| == 0 {
      batchSizes := [];
      assert Layout(ids, TsLabel) == [] && Drafts([], clock, 0) == [];
      assert InsertDrafts(db.seats, []) == db.seats;
      assert BatchCount(0) == 0;
      return;
    }
    var sampleSeats: seq<Draft> := [];
    for i := 0 to |allShowtimes|
      invariant sampleSeats == Drafts(Layout(ids[..i], TsLabel), clock, 0)
      invariant db.seats == old(db.seats)
    {
      var before := Layout(ids[..i], TsLabel);
      sampleSeats := PushShowtimeSeats(sampleSeats, allShowtimes[i].id, TsLabel, clock);
      assert ids[..i + 1][..i] == ids[..i];
      DraftsAppend(before, ShowtimePlaces(ids[i], |Rows|, TsLabel), clock, 0);
    }
    assert ids[..|allShowtimes|] == ids;
    assert |sampleSeats| == 80 * |allShowtimes|;
    batchSizes := InsertInBatches(db, sampleSeats);
  }

  function Min(a: int, b: int): int { if a < b then a else b }

  lemma TotalPush(sizes: seq<nat>, x: nat)
    ensures SumOf<nat>(sizes + [x], (y: nat) => y) == SumOf<nat>(sizes, (y: nat) => y) + x
  {
    assert (sizes + [x])[..|sizes|] == sizes;
  }

  /** `n` items in batches of 500, the last one short, take `ceil(n / 500)` batches. */
  lemma BatchCountOf(n: nat, count: nat)
    requires n > 0 && BatchSize * (count - 1) < n <= BatchSize * count
    ensures count == BatchCount(n)
  {
  }
}
