/**
 * The seat map (`src/components/booking/SeatSelector.jsx`): the seats of a showtime grouped by
 * row, rows in ascending string order, the seats of a row by the number formed from the digits
 * of their seat number, each seat marked selected when a selected seat has its id and disabled
 * when it is booked.
 */
module SeatSelector {
  import opened JsLib
  import opened Schema
  import opened Sorting
  import opened Grouping

  function RowOf(s: Seat): string { s.row }

  /** `seatNumber.replace(/\D/g, '')`. */
  function DigitsOnly(s: string): string {
    Filter(s, IsDigit)
  }

  /** `parseInt(seatNumber.replace(/\D/g, '')) || 0`: the digits read as a number, 0 when there are none. */
  function SeatOrderKey(s: Seat): int {
    match ParseInt(DigitsOnly(s.seatNumber))
    case Some(n) => n
    case None => 0
  }

  /** The comparator `numA - numB`. */
  function BySeatNumber(): (Seat, Seat) -> bool { AscInt(SeatOrderKey) }


  /** A seat as shown: whether it is highlighted as selected and whether its button is disabled. */
  datatype SeatView = SeatView(seat: Seat, selected: bool, disabled: bool)

  function ViewOf(seat: Seat, selectedSeats: seq<Seat>): SeatView {
    SeatView(seat, Find(selectedSeats, (s: Seat) => s.id == seat.id).Some?, seat.isBooked)
  }

  /**
   * A seat shows as selected exactly when some selected seat has its id, and it is disabled,
   * so its click handler cannot fire, exactly when it is booked.
   */
  lemma ViewOfSpec(seat: Seat, selectedSeats: seq<Seat>)
    ensures ViewOf(seat, selectedSeats).selected <==> exists i :: 0 <= i < |selectedSeats| && selectedSeats[i].id == seat.id
    ensures ViewOf(seat, selectedSeats).disabled <==> seat.isBooked
  {
  }

  /** The seat numbers the seeders write, bare ("7") or after the row letter ("C7"), order by their number. */
  lemma SeatOrderKeyOfLabel(s: Seat, prefix: string, n: nat)
    requires forall i :: 0 <= i < |prefix| ==> !IsDigit(prefix[i])
    requires s.seatNumber == prefix + NatToString(n)
    ensures SeatOrderKey(s) == n
  {
    FilterAppend(prefix, NatToString(n), IsDigit);
    FilterNone(prefix, IsDigit);
    FilterAll(NatToString(n), IsDigit);
    assert DigitsOnly(s.seatNumber) == NatToString(n);
    assert IntToString(n) == NatToString(n);
    ParseIntOfIntToString(n);
  }

  lemma {:induction false} FilterNone(s: string, p: char -> bool)
    requires forall i :: 0 <= i < |s| ==> !p(s[i])
    ensures Filter(s, p) == []
  {
    if s != [] {
      FilterNone(s[..|s| - 1], p);
    }
  }

  /** One row as shown: its seats sorted by number, each marked. */
  function RowView(group: seq<Seat>, selectedSeats: seq<Seat>): (v: seq<SeatView>)
    ensures |v| == |group|
  {
    var sorted := SortBy(group, BySeatNumber());
    seq(|sorted|, j requires 0 <= j < |sorted| => ViewOf(sorted[j], selectedSeats))
  }

  /**
   * A row shows each of its seats once, in ascending order of seat number, each marked as
   * `ViewOf` says.
   */
  lemma RowViewSpec(group: seq<Seat>, selectedSeats: seq<Seat>)
    ensures var v := RowView(group, selectedSeats);
      && multiset(seq(|v|, j requires 0 <= j < |v| => v[j].seat)) == multiset(group)
      && (forall i, j :: 0 <= i < j < |v| ==> SeatOrderKey(v[i].seat) <= SeatOrderKey(v[j].seat))
      && (forall j :: 0 <= j < |v| ==> v[j] == ViewOf(v[j].seat, selectedSeats))
  {
    var sorted := SortBy(group, BySeatNumber());
    var v := RowView(group, selectedSeats);
    AscIntTotal(SeatOrderKey);
    SortBySorted(group, BySeatNumber());
    assert seq(|v|, j requires 0 <= j < |v| => v[j].seat) == sorted;
  }

  /**
   * The rendering, as the component does it: group the seats by row in one pass, sort the row
   * keys, and lay out each row (`sortedRows.map`).
   */
  method SeatRows(seats: seq<Seat>, selectedSeats: seq<Seat>) returns (rows: seq<string>, views: map<string, seq<SeatView>>)
    ensures multiset(rows) == multiset(DistinctKeys(seats, RowOf)) && Sorted(rows, AscStr((k: string) => k))
    ensures forall r :: r in views <==> r in rows
    ensures forall r :: r in views ==> views[r] == RowView(Keyed(seats, RowOf, r), selectedSeats)
  {
    var grouped, order := GroupBy(seats, RowOf);
    rows := SortedStrings(order);
    assert forall r :: r in rows ==> r in order by {
      assert forall r :: r in rows ==> r in multiset(order);
    }
    views := map r | r in rows :: RowView(grouped[r], selectedSeats);
  }

  /**
   * Every seat is in the group of its row and in no other, and the group sizes add up to the
   * number of seats.
   */
  lemma RowGroupsSpec(seats: seq<Seat>, seat: Seat, r: string)
    ensures seat in Keyed(seats, RowOf, r) <==> seat in seats && seat.row == r
    ensures SumOf(DistinctKeys(seats, RowOf), k => |Keyed(seats, RowOf, k)|) == |seats|
  {
    KeyedMember(seats, RowOf, r, seat);
    GroupSizesSum(seats, RowOf);
  }
}
