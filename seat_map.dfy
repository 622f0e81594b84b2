/** The seat map (src/components/booking/SeatMap.tsx): how a seat is
    displayed, what a click passes on, the grouping of seats into rows and
    the aisle gap inside a row. */
module SeatMap {
  import opened Types
  import Collections

  datatype DisplayStatus = ShownSold | ShownSelected | ShownAvailable

  /** `getSeatStatus(seat)`: a sold seat shows as sold whatever the
      selection; otherwise as selected exactly when its id is selected. */
  function GetSeatStatus(seat: Seat, selectedSeats: seq<Seat>): (st: DisplayStatus)
    ensures seat.status == Sold ==> st == ShownSold
    ensures seat.status != Sold ==>
              (st == ShownSelected <==> exists i :: 0 <= i < |selectedSeats| && selectedSeats[i].id == seat.id)
    ensures st == ShownSold <==> seat.status == Sold
  {
    if seat.status == Sold then ShownSold
    else if exists i :: 0 <= i < |selectedSeats| && selectedSeats[i].id == seat.id then ShownSelected
    else ShownAvailable
  }

  /** `handleSeatClick(seat)`: the seat handed to `onSeatSelect`, or None
      when the click is ignored. */
  function HandleSeatClick(seat: Seat): (selected: Option<Seat>)
    ensures selected.None? <==> seat.status == Sold
    ensures selected.Some? ==> selected.value == seat
  {
    if seat.status == Sold then None else Some(seat)
  }

  // ----------------------------------------------------------- grouping

  /** The row of every seat, in order. */
  function RowsOf(seats: seq<Seat>): (rows: seq<string>)
    ensures |rows| == |seats| && forall i :: 0 <= i < |seats| ==> rows[i] == seats[i].row
  {
    seq(|seats|, i requires 0 <= i < |seats| => seats[i].row)
  }

  function InRow(row: string): Seat -> bool
  {
    (s: Seat) => s.row == row
  }

  /** `order` and `groups` are what the grouping loop holds after the
      seats `done`. */
  ghost predicate Grouped(done: seq<Seat>, order: seq<string>, groups: map<string, seq<Seat>>)
  {
    && order == Collections.Dedupe(RowsOf(done))
    && (forall r :: r in groups <==> r in RowsOf(done))
    && (forall r :: r in groups ==> groups[r] == Collections.Filter(done, InRow(r)))
  }

  /** `seatsByRow`, filled by the `forEach` loop, with the order in which
      `Object.entries` lists its keys: the order the rows were first met. */
  method SeatsByRow(seats: seq<Seat>) returns (order: seq<string>, groups: map<string, seq<Seat>>)
    ensures order == Collections.Dedupe(RowsOf(seats))
    ensures forall r :: r in groups <==> r in RowsOf(seats)
    ensures forall r :: r in groups ==> groups[r] == Collections.Filter(seats, InRow(r))
  {
    order := [];
    groups := map[];
    var i := 0;
    assert RowsOf(seats[..0]) == [];
    while i < |seats|
      invariant i <= |seats|
      invariant Grouped(seats[..i], order, groups)
    {
      var seat := seats[i];
      var order' := if seat.row in groups then order else order + [seat.row];
      var groups' := groups[seat.row := (if seat.row in groups then groups[seat.row] else []) + [seat]];
      GroupStep(seats, i, order, groups, order', groups');
      order, groups := order', groups';
      i := i + 1;
    }
    assert seats[..i] == seats;
  }

  /** One turn of the grouping loop: a new row is appended to the order
      with an empty group, then the seat joins its row's group. */
  lemma GroupStep(seats: seq<Seat>, i: nat, order: seq<string>, groups: map<string, seq<Seat>>,
                  order': seq<string>, groups': map<string, seq<Seat>>)
    requires i < |seats|
    requires Grouped(seats[..i], order, groups)
    requires order' == if seats[i].row in groups then order else order + [seats[i].row]
    requires groups' == groups[seats[i].row := (if seats[i].row in groups then groups[seats[i].row] else []) + [seats[i]]]
    ensures Grouped(seats[..i + 1], order', groups')
  {
    PrefixSnoc(seats, i);
    GroupAppend(seats[..i], seats[i], seats[..i + 1], order, groups, order', groups');
  }

  lemma PrefixSnoc(seats: seq<Seat>, i: nat)
    requires i < |seats|
    ensures seats[..i + 1] == seats[..i] + [seats[i]]
  {
  }

  lemma RowsOfSnoc(done: seq<Seat>, seat: Seat)
    ensures RowsOf(done + [seat]) == RowsOf(done) + [seat.row]
  {
  }

  lemma GroupAppend(done: seq<Seat>, seat: Seat, next: seq<Seat>, order: seq<string>, groups: map<string, seq<Seat>>,
                    order': seq<string>, groups': map<string, seq<Seat>>)
    requires Grouped(done, order, groups) && next == done + [seat]
    requires order' == if seat.row in groups then order else order + [seat.row]
    requires groups' == groups[seat.row := (if seat.row in groups then groups[seat.row] else []) + [seat]]
    ensures Grouped(next, order', groups')
  {
    RowsOfSnoc(done, seat);
    Collections.DedupeSnoc(RowsOf(done), seat.row);
    GroupKeysStep(done, seat, order, groups, groups');
    forall r | r in groups'
      ensures groups'[r] == Collections.Filter(done + [seat], InRow(r))
    {
      GroupContentStep(done, seat, order, groups, groups', r);
    }
  }

  lemma GroupKeysStep(done: seq<Seat>, seat: Seat, order: seq<string>, groups: map<string, seq<Seat>>,
                      groups': map<string, seq<Seat>>)
    requires Grouped(done, order, groups)
    requires groups' == groups[seat.row := (if seat.row in groups then groups[seat.row] else []) + [seat]]
    ensures forall r :: r in groups' <==> r in RowsOf(done + [seat])
  {
    RowsOfSnoc(done, seat);
  }

  lemma GroupContentStep(done: seq<Seat>, seat: Seat, order: seq<string>, groups: map<string, seq<Seat>>,
                         groups': map<string, seq<Seat>>, r: string)
    requires Grouped(done, order, groups)
    requires groups' == groups[seat.row := (if seat.row in groups then groups[seat.row] else []) + [seat]]
    requires r in groups'
    ensures groups'[r] == Collections.Filter(done + [seat], InRow(r))
  {
    Collections.FilterAppend(done, [seat], InRow(r));
    if r == seat.row && seat.row !in groups {
      NoneInRow(done, seat.row);
    }
  }

  lemma {:induction false} NoneInRow(seats: seq<Seat>, row: string)
    requires row !in RowsOf(seats)
    ensures Collections.Filter(seats, InRow(row)) == []
  {
    if seats != [] {
      assert seats[0].row == RowsOf(seats)[0];
      assert RowsOf(seats[1..]) == RowsOf(seats)[1..];
      NoneInRow(seats[1..], row);
    }
  }

  /** Every seat lands in the group of its own row and in no other, and each
      group keeps the seats of its row in their original order. */
  lemma GroupingPartitions(seats: seq<Seat>, groups: map<string, seq<Seat>>, s: Seat, r: string)
    requires forall r :: r in groups ==> groups[r] == Collections.Filter(seats, InRow(r))
    requires r in groups
    ensures s in groups[r] <==> s in seats && s.row == r
    ensures Collections.IsSubsequence(groups[r], seats)
  {
    Collections.FilterMembers(seats, InRow(r), s);
    Collections.FilterIsSubsequence(seats, InRow(r));
  }

  /** Rows are listed once each, in the order of their first seat. */
  lemma RowOrder(seats: seq<Seat>, order: seq<string>)
    requires order == Collections.Dedupe(RowsOf(seats))
    ensures Collections.Distinct(order)
    ensures forall i, j :: 0 <= i < j < |order| ==>
              Collections.FirstIndex(RowsOf(seats), order[i]) < Collections.FirstIndex(RowsOf(seats), order[j])
  {
    Collections.DedupeFirstAppearance(RowsOf(seats));
  }

  // ------------------------------------------------------------- aisle

  /** What a row renders: seat buttons and the aisle gap. */
  datatype Cell = Gap | SeatCell(seat: Seat)

  /** The cells of a row whose gap goes before the seat at index `gapAt`
      (`index === Math.floor(seatsPerRow / 2)`). */
  function Layout(rowSeats: seq<Seat>, gapAt: int): seq<Cell>
  {
    if rowSeats == [] then []
    else (if gapAt == 0 then [Gap] else []) + [SeatCell(rowSeats[0])] + Layout(rowSeats[1..], gapAt - 1)
  }

  /** The row as rendered for a hall with `seatsPerRow` seats per row. */
  function RowCells(rowSeats: seq<Seat>, seatsPerRow: int): seq<Cell>
  {
    Layout(rowSeats, seatsPerRow / 2)
  }

  function SeatsOf(cells: seq<Cell>): seq<Seat>
  {
    if cells == [] then []
    else (if cells[0].SeatCell? then [cells[0].seat] else []) + SeatsOf(cells[1..])
  }

  function GapCount(cells: seq<Cell>): nat
  {
    if cells == [] then 0 else (if cells[0] == Gap then 1 else 0) + GapCount(cells[1..])
  }

  lemma {:induction false} SeatsOfAppend(a: seq<Cell>, b: seq<Cell>)
    ensures SeatsOf(a + b) == SeatsOf(a) + SeatsOf(b)
    ensures GapCount(a + b) == GapCount(a) + GapCount(b)
  {
    if a != [] {
      assert (a + b)[1..] == a[1..] + b;
      SeatsOfAppend(a[1..], b);
    } else {
      assert a + b == b;
    }
  }

  lemma {:induction false} LayoutSeats(rowSeats: seq<Seat>, gapAt: int)
    ensures SeatsOf(Layout(rowSeats, gapAt)) == rowSeats
  {
    if rowSeats != [] {
      var tail := Layout(rowSeats[1..], gapAt - 1);
      var rest := [SeatCell(rowSeats[0])] + tail;
      LayoutSeats(rowSeats[1..], gapAt - 1);
      assert rest[1..] == tail;
      assert SeatsOf(rest) == [rowSeats[0]] + rowSeats[1..];
      if gapAt == 0 {
        assert ([Gap] + rest)[1..] == rest;
      }
      assert rowSeats == [rowSeats[0]] + rowSeats[1..];
    }
  }

  lemma {:induction false} LayoutGaps(rowSeats: seq<Seat>, gapAt: int)
    ensures GapCount(Layout(rowSeats, gapAt)) == if 0 <= gapAt < |rowSeats| then 1 else 0
  {
    if rowSeats != [] {
      var gap: seq<Cell> := if gapAt == 0 then [Gap] else [];
      var rest := [SeatCell(rowSeats[0])] + Layout(rowSeats[1..], gapAt - 1);
      LayoutGaps(rowSeats[1..], gapAt - 1);
      assert Layout(rowSeats, gapAt) == gap + rest;
      SeatsOfAppend(gap, rest);
      assert rest[1..] == Layout(rowSeats[1..], gapAt - 1);
    }
  }

  lemma {:induction false} LayoutGapAt(rowSeats: seq<Seat>, gapAt: int)
    requires 0 <= gapAt < |rowSeats|
    ensures |Layout(rowSeats, gapAt)| > gapAt && Layout(rowSeats, gapAt)[gapAt] == Gap
  {
    if gapAt > 0 {
      LayoutGapAt(rowSeats[1..], gapAt - 1);
      assert Layout(rowSeats, gapAt) == [SeatCell(rowSeats[0])] + Layout(rowSeats[1..], gapAt - 1);
    }
  }

  /** The row shows its seats in order, with exactly one gap when the row
      reaches the gap's position and none otherwise; the gap sits right
      before seat number `gapAt`. */
  lemma LayoutShape(rowSeats: seq<Seat>, gapAt: int)
    ensures SeatsOf(Layout(rowSeats, gapAt)) == rowSeats
    ensures GapCount(Layout(rowSeats, gapAt)) == if 0 <= gapAt < |rowSeats| then 1 else 0
    ensures 0 <= gapAt < |rowSeats| ==> |Layout(rowSeats, gapAt)| > gapAt && Layout(rowSeats, gapAt)[gapAt] == Gap
  {
    LayoutSeats(rowSeats, gapAt);
    LayoutGaps(rowSeats, gapAt);
    if 0 <= gapAt < |rowSeats| {
      LayoutGapAt(rowSeats, gapAt);
    }
  }

  /** A full row of `seatsPerRow` seats gets its single gap after the first
      half, rounded down. */
  lemma FullRowGap(rowSeats: seq<Seat>, seatsPerRow: int)
    requires |rowSeats| == seatsPerRow && seatsPerRow >= 1
    ensures GapCount(RowCells(rowSeats, seatsPerRow)) == 1
    ensures |RowCells(rowSeats, seatsPerRow)| > seatsPerRow / 2 && RowCells(rowSeats, seatsPerRow)[seatsPerRow / 2] == Gap
    ensures SeatsOf(RowCells(rowSeats, seatsPerRow)) == rowSeats
  {
    LayoutShape(rowSeats, seatsPerRow / 2);
  }
}
