/** The in-memory catalogue (src/data/mockData.ts): the seat-grid generator
    used for the mock showtimes and the halls, concerts and promo-code tables
    with the invariants the pages rely on. */
module MockData {
  import opened Types
  import Text

  const RowLabels := "ABCDEFGHIJKLMNOPQRSTUVWXYZ"

  lemma RowLabelsAreLetters()
    ensures |RowLabels| == 26
    ensures forall r :: 0 <= r < 26 ==> RowLabels[r] as int == 'A' as int + r
  {
  }

  /** `rowLabels[r]` as a template string renders it: a letter for r < 26 and
      the text "undefined" past the end of the alphabet. */
  function RowLabel(r: nat): (name: string)
    ensures r < 26 ==> name == [RowLabels[r]]
    ensures r >= 26 ==> name == "undefined"
  {
    if r < 26 then [RowLabels[r]] else "undefined"
  }

  /** Rows 0-1 are super, rows 2-3 deluxe, the rest normal. */
  function RowType(r: nat): SeatType
  {
    if r < 2 then Super else if r < 4 then Deluxe else Normal
  }

  /** The seat the generator pushes for row `r` and number `s`; `sold` is the
      outcome of the `Math.random() < 0.3` draw for it. */
  function GridSeat(r: nat, s: nat, sold: bool): Seat
  {
    Seat(RowLabel(r) + Text.NatToString(s), RowLabel(r), s, RowType(r), if sold then Sold else Available)
  }

  /** Seats 1..n of row r, in order. */
  function RowSeats(r: nat, n: nat, isSold: (nat, nat) -> bool): (row: seq<Seat>)
    ensures |row| == n
  {
    if n == 0 then [] else RowSeats(r, n - 1, isSold) + [GridSeat(r, n, isSold(r, n))]
  }

  /** Rows 0..rows-1, each with seats 1..seatsPerRow, row after row. */
  function Grid(rows: nat, seatsPerRow: nat, isSold: (nat, nat) -> bool): seq<Seat>
  {
    if rows == 0 then [] else Grid(rows - 1, seatsPerRow, isSold) + RowSeats(rows - 1, seatsPerRow, isSold)
  }

  /** `generateSeats(rows, seatsPerRow)`: nested loops pushing one seat per
      (row, number); `isSold(r, s)` stands for the random draw. */
  method GenerateSeats(rows: nat, seatsPerRow: nat, isSold: (nat, nat) -> bool) returns (seats: seq<Seat>)
    ensures seats == Grid(rows, seatsPerRow, isSold)
  {
    seats := [];
    var r := 0;
    while r < rows
      invariant r <= rows
      invariant seats == Grid(r, seatsPerRow, isSold)
    {
      var s := 1;
      while s <= seatsPerRow
        invariant 1 <= s <= seatsPerRow + 1
        invariant seats == Grid(r, seatsPerRow, isSold) + RowSeats(r, s - 1, isSold)
      {
        var kind := if r < 2 then Super else if r < 4 then Deluxe else Normal;
        var sold := isSold(r, s);
        seats := seats + [Seat(RowLabel(r) + Text.NatToString(s), RowLabel(r), s, kind,
                               if sold then Sold else Available)];
        s := s + 1;
      }
      r := r + 1;
    }
  }

  lemma {:induction false} RowSeatsAt(r: nat, n: nat, isSold: (nat, nat) -> bool, j: nat)
    requires j < n
    ensures RowSeats(r, n, isSold)[j] == GridSeat(r, j + 1, isSold(r, j + 1))
  {
    if j < n - 1 {
      RowSeatsAt(r, n - 1, isSold, j);
    }
  }

  /** The grid has rows × seatsPerRow seats. */
  lemma {:induction false} GridSize(rows: nat, seatsPerRow: nat, isSold: (nat, nat) -> bool)
    ensures |Grid(rows, seatsPerRow, isSold)| == rows * seatsPerRow
  {
    if rows > 0 {
      GridSize(rows - 1, seatsPerRow, isSold);
      assert rows * seatsPerRow == (rows - 1) * seatsPerRow + seatsPerRow;
    }
  }

  /** Row-major order: position r * seatsPerRow + j holds seat number j + 1
      of row r, with the type rule applied and a sold or available status. */
  lemma {:induction false} GridAt(rows: nat, seatsPerRow: nat, isSold: (nat, nat) -> bool, r: nat, j: nat)
    requires r < rows && j < seatsPerRow
    ensures 0 <= r * seatsPerRow + j < |Grid(rows, seatsPerRow, isSold)|
    ensures Grid(rows, seatsPerRow, isSold)[r * seatsPerRow + j] == GridSeat(r, j + 1, isSold(r, j + 1))
  {
    var g := Grid(rows - 1, seatsPerRow, isSold);
    var row := RowSeats(rows - 1, seatsPerRow, isSold);
    assert Grid(rows, seatsPerRow, isSold) == g + row;
    GridSize(rows - 1, seatsPerRow, isSold);
    GridSize(rows, seatsPerRow, isSold);
    if r < rows - 1 {
      GridAt(rows - 1, seatsPerRow, isSold, r, j);
      MulStep(r, rows - 1, seatsPerRow);
    } else {
      RowSeatsAt(rows - 1, seatsPerRow, isSold, j);
    }
  }

  /** Every generated id starts with the label of a row below `rows`. */
  lemma {:induction false} GridRowLetters(rows: nat, seatsPerRow: nat, isSold: (nat, nat) -> bool, k: nat)
    requires rows <= 26 && k < |Grid(rows, seatsPerRow, isSold)|
    ensures |Grid(rows, seatsPerRow, isSold)[k].id| >= 1
    ensures 'A' as int <= Grid(rows, seatsPerRow, isSold)[k].id[0] as int < 'A' as int + rows
  {
    RowLabelsAreLetters();
    var g := Grid(rows - 1, seatsPerRow, isSold);
    assert Grid(rows, seatsPerRow, isSold) == g + RowSeats(rows - 1, seatsPerRow, isSold);
    if k < |g| {
      GridRowLetters(rows - 1, seatsPerRow, isSold, k);
    } else {
      RowSeatsAt(rows - 1, seatsPerRow, isSold, k - |g|);
    }
  }

  /** Seat ids tell row and number apart as long as the row is labelled by a
      letter: the id is the letter followed by the digits of the number. */
  lemma SeatIdInjective(r1: nat, s1: nat, r2: nat, s2: nat, b1: bool, b2: bool)
    requires r1 < 26 && r2 < 26
    requires GridSeat(r1, s1, b1).id == GridSeat(r2, s2, b2).id
    ensures r1 == r2 && s1 == s2
  {
    var id := GridSeat(r1, s1, b1).id;
    assert id[0] == RowLabels[r1] && id[0] == RowLabels[r2];
    RowLabelsAreLetters();
    assert id[1..] == Text.NatToString(s1) && id[1..] == Text.NatToString(s2);
    Text.NatToStringInjective(s1, s2);
  }

  /** A seat of the last row differs in id from every seat before it. */
  lemma LastRowIdsFresh(rows: nat, seatsPerRow: nat, isSold: (nat, nat) -> bool, i: nat, k: nat)
    requires 0 < rows <= 26
    requires |Grid(rows - 1, seatsPerRow, isSold)| <= k < |Grid(rows, seatsPerRow, isSold)| && i < k
    ensures Grid(rows, seatsPerRow, isSold)[i].id != Grid(rows, seatsPerRow, isSold)[k].id
  {
    var g := Grid(rows - 1, seatsPerRow, isSold);
    var all := Grid(rows, seatsPerRow, isSold);
    assert all == g + RowSeats(rows - 1, seatsPerRow, isSold);
    RowSeatsAt(rows - 1, seatsPerRow, isSold, k - |g|);
    RowLabelsAreLetters();
    if i < |g| {
      GridRowLetters(rows - 1, seatsPerRow, isSold, i);
      assert all[k].id[0] == RowLabels[rows - 1];
    } else {
      RowSeatsAt(rows - 1, seatsPerRow, isSold, i - |g|);
      if all[i].id == all[k].id {
        SeatIdInjective(rows - 1, i - |g| + 1, rows - 1, k - |g| + 1,
                        isSold(rows - 1, i - |g| + 1), isSold(rows - 1, k - |g| + 1));
      }
    }
  }

  /** With at most 26 rows no two generated seats share an id. */
  lemma {:induction false} GridIdsDistinct(rows: nat, seatsPerRow: nat, isSold: (nat, nat) -> bool)
    requires rows <= 26
    ensures forall i, k :: 0 <= i < k < |Grid(rows, seatsPerRow, isSold)| ==>
              Grid(rows, seatsPerRow, isSold)[i].id != Grid(rows, seatsPerRow, isSold)[k].id
  {
    if rows > 0 {
      var g := Grid(rows - 1, seatsPerRow, isSold);
      var all := Grid(rows, seatsPerRow, isSold);
      assert all == g + RowSeats(rows - 1, seatsPerRow, isSold);
      GridIdsDistinct(rows - 1, seatsPerRow, isSold);
      forall i, k | 0 <= i < k < |all| ensures all[i].id != all[k].id {
        if k >= |g| {
          LastRowIdsFresh(rows, seatsPerRow, isSold, i, k);
        } else {
          assert all[i] == g[i] && all[k] == g[k];
        }
      }
    }
  }

  /** Beyond 26 rows the generator labels rows "undefined", so two rows share
      their ids: the 27th and 28th rows both produce "undefined1". */
  lemma IdsCollideBeyondTwentySixRows(isSold: (nat, nat) -> bool)
    ensures GridSeat(26, 1, isSold(26, 1)).id == GridSeat(27, 1, isSold(27, 1)).id
  {
  }

  // ------------------------------------------------------------- tables

  /** The `halls` table: every movie hall holds rows × seatsPerRow seats. */
  function Halls(): (hs: seq<Hall>)
    ensures forall h :: h in hs && h.kind == MovieHall ==> h.totalSeats == h.rows * h.seatsPerRow
    ensures forall h :: h in hs ==> h.rows <= 26
  {
    [ Hall("h1", "Hall 1 - IMAX", MovieHall, 200, 10, 20),
      Hall("h2", "Hall 2 - 4DX", MovieHall, 150, 10, 15),
      Hall("h3", "Hall 3 - Premium", MovieHall, 180, 9, 20),
      Hall("h4", "Hall 4 - Standard", MovieHall, 200, 10, 20),
      Hall("h5", "Hall 5 - Standard", MovieHall, 200, 10, 20),
      Hall("h6", "Hall 6 - Dolby", MovieHall, 160, 8, 20),
      Hall("h7", "Convention Hall", ConcertHall, 1000, 0, 0) ]
  }

  function Sections(vip: (real, int, int), front: (real, int, int), middle: (real, int, int),
                    back: (real, int, int)): seq<ConcertSection>
  {
    [ ConcertSection("vip", "vip", vip.0, vip.1, vip.2),
      ConcertSection("front", "front", front.0, front.1, front.2),
      ConcertSection("middle", "middle", middle.0, middle.1, middle.2),
      ConcertSection("back", "back", back.0, back.1, back.2) ]
  }

  /** The `concerts` table: no section has more seats left than it holds. */
  function Concerts(): (cs: seq<Concert>)
    ensures forall c, s :: c in cs && s in c.sections ==>
              0 <= s.availableCapacity <= s.totalCapacity && s.price > 0.0
    ensures forall c :: c in cs ==> |c.sections| == 4
  {
    [ Concert("c1", "Arijit Singh Live", "Arijit Singh", "Bollywood", "2024-12-25", "19:00",
              Sections((5000.0, 100, 45), (3000.0, 200, 120), (2000.0, 300, 180), (1000.0, 400, 350))),
      Concert("c2", "Coke Studio Night", "Various Artists", "Mixed", "2024-12-28", "18:00",
              Sections((4500.0, 100, 60), (2500.0, 200, 90), (1500.0, 300, 200), (800.0, 400, 320))),
      Concert("c3", "Rock Night Bangladesh", "Artcell & Warfaze", "Rock", "2025-01-05", "17:00",
              Sections((3500.0, 100, 80), (2000.0, 200, 150), (1200.0, 300, 250), (600.0, 400, 380))) ]
  }

  /** The hall a mock showtime plays in and the grid it generates for it:
      showtime id, hall id, rows, seats per row. */
  function ShowtimeGrids(): (gs: seq<(string, string, nat, nat)>)
    ensures forall g :: g in gs ==> exists h :: h in Halls() && h.kind == MovieHall && h.id == g.1 && h.rows == g.2 && h.seatsPerRow == g.3
  {
    var hs := Halls();
    assert hs[0].id == "h1" && hs[1].id == "h2" && hs[2].id == "h3" && hs[3].id == "h4";
    assert hs[4].id == "h5" && hs[5].id == "h6";
    [ ("st1", "h1", 10, 20), ("st2", "h1", 10, 20), ("st3", "h2", 10, 15), ("st4", "h3", 9, 20),
      ("st5", "h4", 10, 20), ("st6", "h5", 10, 20), ("st7", "h6", 8, 20) ]
  }

  /** Every mock showtime offers exactly as many seats as its hall has, with
      ids that do not repeat. */
  lemma ShowtimeGridsFitHalls(g: (string, string, nat, nat), isSold: (nat, nat) -> bool)
    requires g in ShowtimeGrids()
    ensures exists h :: h in Halls() && h.id == g.1 && |Grid(g.2, g.3, isSold)| == h.totalSeats
    ensures forall i, k :: 0 <= i < k < |Grid(g.2, g.3, isSold)| ==> Grid(g.2, g.3, isSold)[i].id != Grid(g.2, g.3, isSold)[k].id
  {
    var h :| h in Halls() && h.kind == MovieHall && h.id == g.1 && h.rows == g.2 && h.seatsPerRow == g.3;
    assert h.totalSeats == g.2 * g.3;
    GridSize(g.2, g.3, isSold);
    assert |Grid(g.2, g.3, isSold)| == h.totalSeats;
    GridIdsDistinct(g.2, g.3, isSold);
  }

  /** The `promoCodes` table: every code is active, written without
      lower-case letters and listed once, and no percentage exceeds 100. */
  function PromoCodes(): (ps: seq<PromoCode>)
    ensures forall p :: p in ps ==> p.isActive && p.discount >= 0.0
    ensures forall p :: p in ps && p.kind == Percentage ==> p.discount <= 100.0
    ensures forall p, i :: p in ps && 0 <= i < |p.code| ==> !Text.IsLower(p.code[i])
    ensures forall i, j :: 0 <= i < j < |ps| ==> ps[i].code != ps[j].code
  {
    [ PromoCode("FIRSTORDER", 10.0, Percentage, true),
      PromoCode("PRIYORCHOTOBHAI", 90.0, Percentage, true),
      PromoCode("TIXWIX50", 50.0, Fixed, true) ]
  }

  /** A code without lower-case letters is its own upper-case form, so the
      upper-cased input of the promo box can match it. */
  lemma {:induction false} UpperOfUpper(s: string)
    requires forall i :: 0 <= i < |s| ==> !Text.IsLower(s[i])
    ensures Text.ToUpper(s) == s
  {
  }
}
