/** scripts/seed.py: row labels and the geometry of a seeded hall. */
module SeatLayout {

  const SEAT_PITCH: real := 14.0
  const AISLE_WIDTH: real := 22.0
  const SECTION_ROW_SHARE: seq<real> := [0.15, 0.25, 0.28, 0.32]

  function Letter(d: nat): char
    requires d < 26
  {
    ('A' as int + d) as char
  }

  predicate IsUpper(c: char) {
    'A' <= c <= 'Z'
  }

  /** Numbers without a zero digit: A..Z are the digits 1..26. */
  function Bijective(n: nat): (s: string)
    ensures forall i | 0 <= i < |s| :: IsUpper(s[i])
    decreases n
  {
    if n == 0 then "" else Bijective((n - 1) / 26) + [Letter((n - 1) % 26)]
  }

  function Decode(s: string): nat
    requires forall i | 0 <= i < |s| :: IsUpper(s[i])
    decreases |s|
  {
    if s == "" then 0 else
      var last := s[|s| - 1];
      assert IsUpper(last);
      Decode(s[..|s| - 1]) * 26 + (last as int - 'A' as int + 1)
  }

  lemma {:induction false} DecodeOfBijective(n: nat)
    ensures Decode(Bijective(n)) == n
    decreases n
  {
    if n > 0 {
      var front := Bijective((n - 1) / 26);
      DecodeOfBijective((n - 1) / 26);
      assert Bijective(n)[..|Bijective(n)| - 1] == front;
    }
  }

  /** Every string of capital letters is the label of exactly one number. */
  lemma {:induction false} BijectiveOfDecode(s: string)
    requires forall i | 0 <= i < |s| :: IsUpper(s[i])
    ensures Bijective(Decode(s)) == s
    decreases |s|
  {
    if s != "" {
      var front := s[..|s| - 1];
      var d := s[|s| - 1] as int - 'A' as int;
      BijectiveOfDecode(front);
      OneMoreDigit(Decode(front), d);
      assert Letter(d) == s[|s| - 1];
      assert s == front + [s[|s| - 1]];
    }
  }

  lemma OneMoreDigit(n: nat, d: nat)
    requires d < 26
    ensures Bijective(n * 26 + d + 1) == Bijective(n) + [Letter(d)]
  {
    var m := n * 26 + d;
    assert m / 26 == n && m % 26 == d;
  }

  /** `row_label`: spreadsheet-style labels, least significant letter first. */
  method RowLabel(index: nat) returns (rowLabel: string)
    ensures rowLabel == Bijective(index + 1)
  {
    rowLabel := "";
    var rest: nat := index + 1;
    while rest > 0
      invariant Bijective(index + 1) == Bijective(rest) + rowLabel
    {
      var remainder := (rest - 1) % 26;
      rowLabel := [Letter(remainder)] + rowLabel;
      rest := (rest - 1) / 26;
    }
  }

  /** Seats per row and the block split, from the rounded square root `estimate` of 1.7 n. */
  datatype Shape = Shape(seatsPerRow: nat, side: nat, centre: nat)

  function HallShape(estimate: int): (r: Shape)
    ensures r.seatsPerRow % 2 == 0
    ensures if estimate < 20 then r.seatsPerRow == 20
            else if estimate > 100 then r.seatsPerRow == 100
            else estimate - 1 <= r.seatsPerRow <= estimate
    ensures 5 <= r.side && 2 * r.side <= r.centre <= 2 * r.side + 2 && 2 * r.side + r.centre == r.seatsPerRow
  {
    var capped := if estimate < 100 then estimate else 100;
    var floored := if capped > 20 then capped else 20;
    var even := floored - floored % 2;
    var side := if even / 4 > 4 then even / 4 else 4;
    Shape(even, side, even - 2 * side)
  }

  function Sum(blocks: seq<nat>): nat
    decreases |blocks|
  {
    if blocks == [] then 0 else Sum(blocks[..|blocks| - 1]) + blocks[|blocks| - 1]
  }

  /** How many whole blocks lie before a seat: the aisles it is shifted by. */
  function AislesBefore(index: nat, blocks: seq<nat>): (k: nat)
    ensures k <= |blocks|
    decreases |blocks|
  {
    if blocks == [] then 0
    else if index < Sum(blocks[..|blocks| - 1]) then AislesBefore(index, blocks[..|blocks| - 1])
    else if index < Sum(blocks) then |blocks| - 1
    else |blocks|
  }

  function SeatX(index: nat, blocks: seq<nat>): real {
    (index as real) * SEAT_PITCH + (AislesBefore(index, blocks) as real) * AISLE_WIDTH
  }

  lemma {:induction false} SumMonotone(blocks: seq<nat>, k: nat)
    requires k <= |blocks|
    ensures Sum(blocks[..k]) <= Sum(blocks)
    decreases |blocks|
  {
    if k == |blocks| {
      assert blocks[..k] == blocks;
    } else {
      SumMonotone(blocks[..|blocks| - 1], k);
      assert blocks[..|blocks| - 1][..k] == blocks[..k];
    }
  }

  /** The seat in block `k` has exactly `k` aisles before it. */
  lemma {:induction false} InBlock(index: nat, blocks: seq<nat>, k: nat)
    requires k < |blocks| && Sum(blocks[..k]) <= index < Sum(blocks[..k + 1])
    ensures AislesBefore(index, blocks) == k
    decreases |blocks|
  {
    var front := blocks[..|blocks| - 1];
    if k == |blocks| - 1 {
      assert blocks[..k + 1] == blocks && blocks[..k] == front;
    } else {
      assert front[..k] == blocks[..k] && front[..k + 1] == blocks[..k + 1];
      SumMonotone(front, k + 1);
      InBlock(index, front, k);
    }
  }

  lemma PastBlocks(index: nat, blocks: seq<nat>)
    requires Sum(blocks) <= index
    ensures AislesBefore(index, blocks) == |blocks|
  {
    if blocks != [] {
      SumMonotone(blocks, |blocks| - 1);
    }
  }

  /** `_x_for_seat_in_row`. `overflowed` reports that the seat was beyond all blocks. */
  method XForSeatInRow(index: nat, blocks: seq<nat>) returns (x: real, overflowed: bool)
    ensures x == SeatX(index, blocks)
    ensures overflowed <==> index >= Sum(blocks)
  {
    var remaining := index;
    var i := 0;
    while i < |blocks|
      invariant i <= |blocks|
      invariant index == Sum(blocks[..i]) + remaining
    {
      assert blocks[..i + 1][..i] == blocks[..i];
      if remaining < blocks[i] {
        var seatsBefore := Sum(blocks[..i]) + remaining;
        InBlock(index, blocks, i);
        SumMonotone(blocks, i + 1);
        return (seatsBefore as real) * SEAT_PITCH + (i as real) * AISLE_WIDTH, false;
      }
      remaining := remaining - blocks[i];
      i := i + 1;
    }
    assert blocks[..i] == blocks;
    PastBlocks(index, blocks);
    x := ((Sum(blocks) + remaining) as real) * SEAT_PITCH + (|blocks| as real) * AISLE_WIDTH;
    overflowed := true;
  }

  lemma {:induction false} AislesMonotone(i: nat, j: nat, blocks: seq<nat>)
    requires i <= j
    ensures AislesBefore(i, blocks) <= AislesBefore(j, blocks)
    decreases |blocks|
  {
    if blocks != [] {
      AislesMonotone(i, j, blocks[..|blocks| - 1]);
    }
  }

  /** Along a row, x strictly increases. */
  lemma XIncreases(i: nat, j: nat, blocks: seq<nat>)
    requires i < j
    ensures SeatX(i, blocks) + SEAT_PITCH <= SeatX(j, blocks)
  {
    AislesMonotone(i, j, blocks);
  }

  /** Where the seats of a row stand: a pitch apart, and an aisle further at each of the two block ends. */
  lemma AislesShiftSeats(column: nat, shape: Shape)
    requires 2 * shape.side + shape.centre == shape.seatsPerRow
    ensures SeatX(column, [shape.side, shape.centre, shape.side]) ==
      (column as real) * 14.0 + if column < shape.side then 0.0
                                else if column < shape.side + shape.centre then 22.0
                                else if column < shape.seatsPerRow then 44.0 else 66.0
  {
    var blocks := [shape.side, shape.centre, shape.side];
    assert blocks[..2] == [shape.side, shape.centre] && blocks[..1] == [shape.side] && blocks[..0] == [];
    assert blocks[..3] == blocks && blocks[..2][..1] == [shape.side] && [shape.side][..0] == [];
    assert Sum([shape.side]) == shape.side && Sum(blocks[..2]) == shape.side + shape.centre;
    assert Sum(blocks) == shape.seatsPerRow;
    if column < shape.side {
      InBlock(column, blocks, 0);
    } else if column < shape.side + shape.centre {
      InBlock(column, blocks, 1);
    } else if column < shape.seatsPerRow {
      InBlock(column, blocks, 2);
    } else {
      PastBlocks(column, blocks);
    }
  }

  /** The rows that belong to the first `k` sections end here. */
  function Boundary(k: nat, totalRows: nat): real
    requires k <= 4
    decreases k
  {
    if k == 0 then 0.0 else Boundary(k - 1, totalRows) + SECTION_ROW_SHARE[k - 1] * (totalRows as real)
  }

  /** Section `k` is the first whose boundary lies beyond the row; the last section takes the rest. */
  ghost predicate IsSectionOf(k: nat, row: nat, totalRows: nat) {
    && k < 4
    && (forall j: nat | 0 < j <= k :: (row as real) >= Boundary(j, totalRows))
    && (k == 3 || (row as real) < Boundary(k + 1, totalRows))
  }

  /** `_section_index_for_row`. */
  method SectionIndexForRow(row: nat, totalRows: nat) returns (section: nat)
    ensures IsSectionOf(section, row, totalRows)
  {
    var boundary := 0.0;
    section := 0;
    while section < 4
      invariant section <= 4
      invariant boundary == Boundary(section, totalRows)
      invariant forall j: nat | 0 < j <= section :: (row as real) >= Boundary(j, totalRows)
    {
      boundary := boundary + SECTION_ROW_SHARE[section] * (totalRows as real);
      if (row as real) < boundary {
        return;
      }
      section := section + 1;
    }
    section := 3;
  }

  /** Sections are contiguous bands: the row determines its section, and later rows never step back. */
  lemma SectionsAreBands(k: nat, l: nat, row: nat, row': nat, totalRows: nat)
    requires row <= row' && IsSectionOf(k, row, totalRows) && IsSectionOf(l, row', totalRows)
    ensures k <= l && (row == row' ==> k == l)
  {
    NotPast(k, l, row, totalRows);
    NotPast(l, k, row', totalRows);
  }

  lemma NotPast(k: nat, l: nat, row: nat, totalRows: nat)
    requires IsSectionOf(k, row, totalRows)
    ensures l < k ==> (row as real) >= Boundary(l + 1, totalRows)
  {
  }

  /** Over exact reals the shares cover all rows, so the fallback after the loop is never needed. */
  lemma SharesCoverAllRows(row: nat, totalRows: nat)
    requires row < totalRows
    ensures (row as real) < Boundary(4, totalRows)
  {
    var t := totalRows as real;
    assert Boundary(1, totalRows) == 0.15 * t;
    assert Boundary(2, totalRows) == 0.15 * t + 0.25 * t;
    assert Boundary(3, totalRows) == 0.15 * t + 0.25 * t + 0.28 * t;
    assert Boundary(4, totalRows) == 0.15 * t + 0.25 * t + 0.28 * t + 0.32 * t;
  }

  datatype SeatSpec = SeatSpec(rowLabel: string, number: nat, section: nat, x: real)

  /** What the seat in a row and column (both from 0) must be. */
  ghost predicate IsSeat(seat: SeatSpec, row: nat, column: nat, shape: Shape, totalRows: nat) {
    && seat.rowLabel == Bijective(row + 1)
    && seat.number == column + 1
    && IsSectionOf(seat.section, row, totalRows)
    && seat.x == SeatX(column, [shape.side, shape.centre, shape.side])
  }

  function RowOf(i: nat, perRow: nat): nat
    requires perRow > 0
  {
    i / perRow
  }

  function ColumnOf(i: nat, perRow: nat): (c: nat)
    requires perRow > 0
    ensures c < perRow
  {
    i % perRow
  }

  function TotalRows(n: nat, perRow: nat): nat
    requires perRow > 0
  {
    (n + perRow - 1) / perRow
  }

  /** `n` seats fill the rows before the last and at least one place of the last: no row is empty, none is missing. */
  lemma RowsFit(n: nat, perRow: nat)
    requires perRow > 0
    ensures TotalRows(n, perRow) == if n == 0 then 0 else RowOf(n - 1, perRow) + 1
  {
    if n > 0 {
      var q, r := (n - 1) / perRow, (n - 1) % perRow;
      assert n + perRow - 1 == (n - 1) + perRow;
      QuotientOfSum(n - 1, perRow);
    }
  }

  lemma QuotientOfSum(m: nat, d: nat)
    requires d > 0
    ensures (m + d) / d == m / d + 1
  {
    var p, q := (m + d) / d, m / d;
    SplitNumber(m + d, d);
    SplitNumber(m, d);
    Distribute(q, 1, d);
    LaterRows(p, q + 1, d);
    LaterRows(q + 1, p, d);
  }

  lemma SplitNumber(m: nat, d: nat)
    requires d > 0
    ensures m / d * d <= m < m / d * d + d
  {
  }

  lemma BlocksFillRow(shape: Shape)
    requires 2 * shape.side + shape.centre == shape.seatsPerRow
    ensures Sum([shape.side, shape.centre, shape.side]) == shape.seatsPerRow
  {
    var blocks := [shape.side, shape.centre, shape.side];
    assert blocks[..2] == [shape.side, shape.centre] && blocks[..2][..1] == [shape.side];
    assert [shape.side][..0] == [];
    assert Sum([shape.side]) == shape.side;
    assert Sum(blocks[..2]) == shape.side + shape.centre;
  }

  method MakeSeat(row: nat, column: nat, shape: Shape, totalRows: nat) returns (seat: SeatSpec, overflowed: bool)
    requires 2 * shape.side + shape.centre == shape.seatsPerRow
    ensures IsSeat(seat, row, column, shape, totalRows)
    ensures overflowed <==> column >= shape.seatsPerRow
  {
    var blocks := [shape.side, shape.centre, shape.side];
    BlocksFillRow(shape);
    var rowLabel := RowLabel(row);
    var section := SectionIndexForRow(row, totalRows);
    var x;
    x, overflowed := XForSeatInRow(column, blocks);
    seat := SeatSpec(rowLabel, column + 1, section, x);
  }

  lemma PlaceOrder(q: nat, c: nat, q': nat, c': nat, perRow: nat)
    requires c < perRow && c' < perRow && q * perRow + c < q' * perRow + c'
    ensures q <= q' && (q == q' ==> c < c')
  {
    LaterRows(q', q, perRow);
  }

  lemma LaterRows(q: nat, q': nat, perRow: nat)
    ensures q < q' ==> q * perRow + perRow <= q' * perRow
  {
    if q < q' {
      Distribute(q, 1, perRow);
      Distribute(q + 1, q' - q - 1, perRow);
      NeverNegative(q' - q - 1, perRow);
    }
  }

  lemma Distribute(x: nat, y: nat, z: nat)
    ensures (x + y) * z == x * z + y * z
  {
  }

  lemma NeverNegative(x: nat, y: nat)
    ensures x * y >= 0
  {
  }

  lemma IndexFromPlace(i: nat, j: nat, perRow: nat)
    requires perRow > 0 && i < j
    ensures RowOf(i, perRow) <= RowOf(j, perRow)
    ensures RowOf(i, perRow) == RowOf(j, perRow) ==> ColumnOf(i, perRow) < ColumnOf(j, perRow)
  {
    PlaceOrder(i / perRow, i % perRow, j / perRow, j % perRow, perRow);
  }

  /** No two seats of a hall share a row label and a number: the unique constraint holds for every size. */
  lemma PositionsAreUnique(a: SeatSpec, b: SeatSpec, i: nat, j: nat, shape: Shape, totalRows: nat)
    requires shape.seatsPerRow > 0 && i != j
    requires IsSeat(a, RowOf(i, shape.seatsPerRow), ColumnOf(i, shape.seatsPerRow), shape, totalRows)
    requires IsSeat(b, RowOf(j, shape.seatsPerRow), ColumnOf(j, shape.seatsPerRow), shape, totalRows)
    ensures a.rowLabel != b.rowLabel || a.number != b.number
  {
    PlacesDiffer(i, j, shape.seatsPerRow);
    if RowOf(i, shape.seatsPerRow) != RowOf(j, shape.seatsPerRow) {
      LabelsDiffer(RowOf(i, shape.seatsPerRow), RowOf(j, shape.seatsPerRow));
    }
  }

  lemma PlacesDiffer(i: nat, j: nat, perRow: nat)
    requires perRow > 0 && i != j
    ensures RowOf(i, perRow) != RowOf(j, perRow) || ColumnOf(i, perRow) != ColumnOf(j, perRow)
  {
    if i < j { IndexFromPlace(i, j, perRow); } else { IndexFromPlace(j, i, perRow); }
  }

  lemma LabelsDiffer(row: nat, row': nat)
    requires row != row'
    ensures Bijective(row + 1) != Bijective(row' + 1)
  {
    DecodeOfBijective(row + 1);
    DecodeOfBijective(row' + 1);
  }

  /** Seats of one row are laid out left to right, and sections never step back from row to row. */
  lemma LayoutIsOrdered(a: SeatSpec, b: SeatSpec, i: nat, j: nat, shape: Shape, totalRows: nat)
    requires shape.seatsPerRow > 0 && i < j
    requires IsSeat(a, RowOf(i, shape.seatsPerRow), ColumnOf(i, shape.seatsPerRow), shape, totalRows)
    requires IsSeat(b, RowOf(j, shape.seatsPerRow), ColumnOf(j, shape.seatsPerRow), shape, totalRows)
    ensures a.section <= b.section
    ensures a.rowLabel == b.rowLabel ==> a.x + SEAT_PITCH <= b.x && a.section == b.section
  {
    var r := shape.seatsPerRow;
    IndexFromPlace(i, j, r);
    SectionsAreBands(a.section, b.section, RowOf(i, r), RowOf(j, r), totalRows);
    if a.rowLabel == b.rowLabel {
      DecodeOfBijective(RowOf(i, r) + 1);
      DecodeOfBijective(RowOf(j, r) + 1);
      XIncreases(ColumnOf(i, r), ColumnOf(j, r), [shape.side, shape.centre, shape.side]);
    }
  }

  /** Nobody else sits where a seat is. */
  ghost predicate AllApart(seats: seq<SeatSpec>) {
    forall i, j | 0 <= i < j < |seats| :: seats[i].rowLabel != seats[j].rowLabel || seats[i].number != seats[j].number
  }

  /** Rows fill left to right, one section each, and sections never step back. */
  ghost predicate LaidOut(seats: seq<SeatSpec>) {
    forall i, j | 0 <= i < j < |seats| ::
      && seats[i].section <= seats[j].section
      && (seats[i].rowLabel == seats[j].rowLabel ==>
           seats[i].x + SEAT_PITCH <= seats[j].x && seats[i].section == seats[j].section)
  }

  /** The seats of rows of `shape`, `totalRows` in all. */
  ghost predicate InPlace(seats: seq<SeatSpec>, shape: Shape, totalRows: nat)
    requires shape.seatsPerRow > 0
  {
    forall i | 0 <= i < |seats| ::
      IsSeat(seats[i], RowOf(i, shape.seatsPerRow), ColumnOf(i, shape.seatsPerRow), shape, totalRows)
  }

  lemma PlacedSeats(seats: seq<SeatSpec>, shape: Shape, totalRows: nat)
    requires shape.seatsPerRow > 0 && InPlace(seats, shape, totalRows)
    ensures AllApart(seats) && LaidOut(seats)
  {
    forall i, j | 0 <= i < j < |seats|
      ensures seats[i].rowLabel != seats[j].rowLabel || seats[i].number != seats[j].number
    {
      PositionsAreUnique(seats[i], seats[j], i, j, shape, totalRows);
    }
    forall i, j | 0 <= i < j < |seats|
      ensures seats[i].section <= seats[j].section
      ensures seats[i].rowLabel == seats[j].rowLabel ==>
        seats[i].x + SEAT_PITCH <= seats[j].x && seats[i].section == seats[j].section
    {
      LayoutIsOrdered(seats[i], seats[j], i, j, shape, totalRows);
    }
  }

  /** `make_seats`: one seat per index, none of them beyond the blocks of its row, no two with one label and number. */
  method MakeSeats(n: nat, estimate: int) returns (seats: seq<SeatSpec>, anyOverflow: bool)
    ensures |seats| == n && !anyOverflow
    ensures InPlace(seats, HallShape(estimate), TotalRows(n, HallShape(estimate).seatsPerRow))
    ensures AllApart(seats) && LaidOut(seats)
  {
    var shape := HallShape(estimate);
    var totalRows := TotalRows(n, shape.seatsPerRow);
    seats := [];
    anyOverflow := false;
    for i := 0 to n
      invariant |seats| == i && !anyOverflow
      invariant InPlace(seats, shape, totalRows)
    {
      var seat, overflowed := MakeSeat(RowOf(i, shape.seatsPerRow), ColumnOf(i, shape.seatsPerRow), shape, totalRows);
      anyOverflow := anyOverflow || overflowed;
      seats := seats + [seat];
    }
    PlacedSeats(seats, shape, totalRows);
  }
}
