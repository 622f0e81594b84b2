/** The admin dialog that adds a showtime
    (src/components/admin/ShowtimeForm.tsx): its schema, the submit guards and
    the seat rows it generates for the new showtime's hall. */
module ShowtimeForm {
  import opened Types
  import MovieForm

  const Alphabet := "ABCDEFGHIJKLMNOPQRSTUVWXYZ"

  /** A hall row as the dialog loads it. */
  datatype AdminHall = AdminHall(id: string, name: string, kind: string, rows: int, seatsPerRow: int)

  /** A seat row sent to the `seats` table. */
  datatype NewSeat = NewSeat(showtimeId: string, rowLetter: string, seatNumber: int, kind: SeatType,
                             status: SeatStatus)

  /** The fields of the showtime form; prices are the numbers
      `z.coerce.number()` gives. */
  datatype FormData = FormData(date: string, time: string, priceNormal: real, priceDeluxe: real, priceSuper: real)

  datatype ShowtimeField = Date | Time | PriceNormal | PriceDeluxe | PriceSuper

  /** The fields `showtimeSchema` rejects, in the order of the fields. */
  function ShowtimeErrors(d: FormData): seq<ShowtimeField>
  {
    MovieForm.Rule(|d.date| >= 1, Date)
    + MovieForm.Rule(|d.time| >= 1, Time)
    + MovieForm.Rule(d.priceNormal >= 1.0, PriceNormal)
    + MovieForm.Rule(d.priceDeluxe >= 1.0, PriceDeluxe)
    + MovieForm.Rule(d.priceSuper >= 1.0, PriceSuper)
  }

  /** The message the dialog shows under a rejected field. */
  function ShowtimeMessage(f: ShowtimeField): string
  {
    match f
    case Date => "Date is required"
    case Time => "Time is required"
    case PriceNormal => "Normal price is required"
    case PriceDeluxe => "Deluxe price is required"
    case PriceSuper => "Super price is required"
  }

  /** `showtimeSchema`: date and time are present and each price is at
      least 1; accepted exactly when no field is rejected. */
  predicate ValidForm(d: FormData)
    ensures ValidForm(d) <==> |ShowtimeErrors(d)| == 0
  {
    |d.date| >= 1 && |d.time| >= 1 && d.priceNormal >= 1.0 && d.priceDeluxe >= 1.0 && d.priceSuper >= 1.0
  }

  /** Number of letters `'A..Z'.slice(0, rows)` keeps: a negative end counts
      back from 26. */
  function RowCount(rows: int): (n: nat)
    ensures n <= 26
    ensures rows >= 0 ==> n == Min(rows, 26)
    ensures rows < 0 ==> n == Max(26 + rows, 0)
  {
    if rows >= 26 then 26 else if rows >= 0 then rows else if rows >= -26 then 26 + rows else 0
  }

  /** The row letters of a hall, each as a one-character string. */
  function RowLetters(rows: int): (letters: seq<string>)
    ensures |letters| == RowCount(rows)
    ensures forall i :: 0 <= i < |letters| ==> letters[i] == [Alphabet[i]]
  {
    seq(RowCount(rows), i requires 0 <= i < RowCount(rows) => [Alphabet[i]])
  }

  /** The alphabet holds the letters 'A' to 'Z' in order. */
  lemma AlphabetLetters()
    ensures |Alphabet| == 26
    ensures forall i :: 0 <= i < 26 ==> Alphabet[i] as int == 'A' as int + i
  {
  }

  /** No letter is handed to two rows. */
  lemma RowLettersDistinct(rows: int)
    ensures forall i, j :: 0 <= i < j < |RowLetters(rows)| ==> RowLetters(rows)[i] != RowLetters(rows)[j]
  {
    var letters := RowLetters(rows);
    AlphabetLetters();
    forall i, j | 0 <= i < j < |letters| ensures letters[i] != letters[j] {
      assert letters[i][0] as int == 'A' as int + i;
      assert letters[j][0] as int == 'A' as int + j;
    }
  }

  /** `xs.indexOf(x)`: the first position holding `x`, or -1. */
  function IndexOf(xs: seq<string>, x: string): (k: int)
    ensures -1 <= k < |xs|
    ensures k == -1 <==> x !in xs
    ensures k >= 0 ==> xs[k] == x && x !in xs[..k]
  {
    if xs == [] then -1
    else if xs[0] == x then 0
    else
      var k := IndexOf(xs[1..], x);
      assert xs[1..][..if k < 0 then 0 else k] == xs[1..1 + if k < 0 then 0 else k];
      if k < 0 then -1 else k + 1
  }

  /** With distinct letters, a letter's first position is its position. */
  lemma IndexOfDistinct(xs: seq<string>, i: nat)
    requires i < |xs|
    requires forall a, b :: 0 <= a < b < |xs| ==> xs[a] != xs[b]
    ensures IndexOf(xs, xs[i]) == i
  {
    assert xs[i] in xs;
  }

  /** Row index 0-1 is super, 2-3 deluxe, any later row normal. */
  function RowType(rowIndex: int): SeatType
  {
    if rowIndex < 2 then Super else if rowIndex < 4 then Deluxe else Normal
  }

  /** Seats 1..n of the row with the given letter and index. */
  function RowSeats(showtimeId: string, letter: string, rowIndex: nat, n: nat): (row: seq<NewSeat>)
    ensures |row| == n
  {
    if n == 0 then []
    else RowSeats(showtimeId, letter, rowIndex, n - 1) + [NewSeat(showtimeId, letter, n, RowType(rowIndex), Available)]
  }

  /** The first `k` rows of the hall, one after the other. */
  function SeatGrid(showtimeId: string, letters: seq<string>, k: nat, seatsPerRow: nat): seq<NewSeat>
    requires k <= |letters|
  {
    if k == 0 then []
    else SeatGrid(showtimeId, letters, k - 1, seatsPerRow) + RowSeats(showtimeId, letters[k - 1], k - 1, seatsPerRow)
  }

  /** The seats `generateSeats(showtimeId, hall)` inserts. */
  function HallSeats(showtimeId: string, hall: AdminHall): seq<NewSeat>
  {
    SeatGrid(showtimeId, RowLetters(hall.rows), RowCount(hall.rows), Max(hall.seatsPerRow, 0))
  }

  /** `generateSeats`: for each row letter, seats 1..seats_per_row, the type
      taken from the row's index in the letter list. */
  method GenerateSeats(showtimeId: string, hall: AdminHall) returns (seats: seq<NewSeat>)
    ensures seats == HallSeats(showtimeId, hall)
  {
    var rows := RowLetters(hall.rows);
    RowLettersDistinct(hall.rows);
    var spr := Max(hall.seatsPerRow, 0);
    seats := [];
    for i := 0 to |rows|
      invariant seats == SeatGrid(showtimeId, rows, i, spr)
    {
      var rowSeats := GenerateRow(showtimeId, rows, i, hall.seatsPerRow);
      seats := seats + rowSeats;
    }
  }

  /** The inner loop of `generateSeats`: the seats of row `rows[i]`,
      numbered from 1, typed by the row's position among the letters. */
  method GenerateRow(showtimeId: string, rows: seq<string>, i: nat, seatsPerRow: int) returns (rowSeats: seq<NewSeat>)
    requires i < |rows|
    requires forall a, b :: 0 <= a < b < |rows| ==> rows[a] != rows[b]
    ensures rowSeats == RowSeats(showtimeId, rows[i], i, Max(seatsPerRow, 0))
  {
    var row := rows[i];
    IndexOfDistinct(rows, i);
    rowSeats := [];
    var seatNum := 1;
    while seatNum <= seatsPerRow
      invariant 1 <= seatNum <= Max(seatsPerRow, 0) + 1
      invariant rowSeats == RowSeats(showtimeId, row, i, seatNum - 1)
    {
      var kind := Normal;
      var rowIndex := IndexOf(rows, row);
      if rowIndex < 2 {
        kind := Super;
      } else if rowIndex < 4 {
        kind := Deluxe;
      }
      assert kind == RowType(i);
      rowSeats := rowSeats + [NewSeat(showtimeId, row, seatNum, kind, Available)];
      seatNum := seatNum + 1;
    }
  }

  lemma {:induction false} RowSeatsAt(showtimeId: string, letter: string, rowIndex: nat, n: nat, j: nat)
    requires j < n
    ensures RowSeats(showtimeId, letter, rowIndex, n)[j] == NewSeat(showtimeId, letter, j + 1, RowType(rowIndex), Available)
  {
    if j < n - 1 {
      RowSeatsAt(showtimeId, letter, rowIndex, n - 1, j);
    }
  }

  lemma {:induction false} SeatGridSize(showtimeId: string, letters: seq<string>, k: nat, seatsPerRow: nat)
    requires k <= |letters|
    ensures |SeatGrid(showtimeId, letters, k, seatsPerRow)| == k * seatsPerRow
  {
    if k > 0 {
      SeatGridSize(showtimeId, letters, k - 1, seatsPerRow);
      assert k * seatsPerRow == (k - 1) * seatsPerRow + seatsPerRow;
    }
  }

  /** The hall gets min(rows, 26) × seats_per_row seats (none for a
      non-positive seats_per_row). */
  lemma HallSeatsCount(showtimeId: string, hall: AdminHall)
    ensures |HallSeats(showtimeId, hall)| == RowCount(hall.rows) * Max(hall.seatsPerRow, 0)
    ensures hall.rows >= 0 ==> |HallSeats(showtimeId, hall)| == Min(hall.rows, 26) * Max(hall.seatsPerRow, 0)
  {
    SeatGridSize(showtimeId, RowLetters(hall.rows), RowCount(hall.rows), Max(hall.seatsPerRow, 0));
  }

  /** Row-major order: position r * seatsPerRow + j holds seat j + 1 of the
      r-th letter, typed by r, available and tagged with the showtime id. */
  lemma {:induction false} SeatGridAt(showtimeId: string, letters: seq<string>, k: nat, seatsPerRow: nat, r: nat, j: nat)
    requires k <= |letters| && r < k && j < seatsPerRow
    ensures r * seatsPerRow + j < |SeatGrid(showtimeId, letters, k, seatsPerRow)|
    ensures SeatGrid(showtimeId, letters, k, seatsPerRow)[r * seatsPerRow + j]
         == NewSeat(showtimeId, letters[r], j + 1, RowType(r), Available)
  {
    var g := SeatGrid(showtimeId, letters, k - 1, seatsPerRow);
    assert SeatGrid(showtimeId, letters, k, seatsPerRow) == g + RowSeats(showtimeId, letters[k - 1], k - 1, seatsPerRow);
    SeatGridSize(showtimeId, letters, k - 1, seatsPerRow);
    SeatGridSize(showtimeId, letters, k, seatsPerRow);
    if r < k - 1 {
      SeatGridAt(showtimeId, letters, k - 1, seatsPerRow, r, j);
      MulStep(r, k - 1, seatsPerRow);
    } else {
      RowSeatsAt(showtimeId, letters[k - 1], k - 1, seatsPerRow, j);
    }
  }

  /** The seats of a hall, position by position: row letter 'A' + r, seat
      number j + 1, type by row, status available, the given showtime id. */
  lemma HallSeatsAt(showtimeId: string, hall: AdminHall, r: nat, j: nat)
    requires r < RowCount(hall.rows) && j < hall.seatsPerRow
    ensures r * hall.seatsPerRow + j < |HallSeats(showtimeId, hall)|
    ensures HallSeats(showtimeId, hall)[r * hall.seatsPerRow + j]
         == NewSeat(showtimeId, [Alphabet[r]], j + 1, RowType(r), Available)
  {
    SeatGridAt(showtimeId, RowLetters(hall.rows), RowCount(hall.rows), hall.seatsPerRow, r, j);
  }

  /** Every generated seat is available, carries the showtime id, has a
      number in 1..seats_per_row and a row letter among the hall's letters,
      with the type of that letter's row. */
  lemma {:induction false} SeatGridShape(showtimeId: string, letters: seq<string>, k: nat, seatsPerRow: nat, p: nat)
    requires k <= |letters| && p < |SeatGrid(showtimeId, letters, k, seatsPerRow)|
    ensures SeatGrid(showtimeId, letters, k, seatsPerRow)[p].status == Available
    ensures SeatGrid(showtimeId, letters, k, seatsPerRow)[p].showtimeId == showtimeId
    ensures 1 <= SeatGrid(showtimeId, letters, k, seatsPerRow)[p].seatNumber <= seatsPerRow
    ensures exists r :: 0 <= r < k && SeatGrid(showtimeId, letters, k, seatsPerRow)[p].rowLetter == letters[r]
                                   && SeatGrid(showtimeId, letters, k, seatsPerRow)[p].kind == RowType(r)
  {
    var g := SeatGrid(showtimeId, letters, k - 1, seatsPerRow);
    assert SeatGrid(showtimeId, letters, k, seatsPerRow) == g + RowSeats(showtimeId, letters[k - 1], k - 1, seatsPerRow);
    if p < |g| {
      SeatGridShape(showtimeId, letters, k - 1, seatsPerRow, p);
    } else {
      RowSeatsAt(showtimeId, letters[k - 1], k - 1, seatsPerRow, p - |g|);
    }
  }

  /** A seat's place in the hall: its row letter and number. */
  function Place(s: NewSeat): (string, int)
  {
    (s.rowLetter, s.seatNumber)
  }

  /** No two generated seats share a (row letter, seat number) pair. */
  lemma {:induction false} SeatGridPairsDistinct(showtimeId: string, letters: seq<string>, k: nat, seatsPerRow: nat)
    requires k <= |letters|
    requires forall a, b :: 0 <= a < b < |letters| ==> letters[a] != letters[b]
    ensures forall p, q :: 0 <= p < q < |SeatGrid(showtimeId, letters, k, seatsPerRow)| ==>
              Place(SeatGrid(showtimeId, letters, k, seatsPerRow)[p]) != Place(SeatGrid(showtimeId, letters, k, seatsPerRow)[q])
  {
    if k > 0 {
      var g := SeatGrid(showtimeId, letters, k - 1, seatsPerRow);
      var all := SeatGrid(showtimeId, letters, k, seatsPerRow);
      assert all == g + RowSeats(showtimeId, letters[k - 1], k - 1, seatsPerRow);
      SeatGridPairsDistinct(showtimeId, letters, k - 1, seatsPerRow);
      forall p, q | 0 <= p < q < |all| ensures Place(all[p]) != Place(all[q]) {
        if q >= |g| {
          RowSeatsAt(showtimeId, letters[k - 1], k - 1, seatsPerRow, q - |g|);
          if p < |g| {
            SeatGridShape(showtimeId, letters, k - 1, seatsPerRow, p);
            var r :| 0 <= r < k - 1 && g[p].rowLetter == letters[r];
            assert letters[r] != letters[k - 1];
          } else {
            RowSeatsAt(showtimeId, letters[k - 1], k - 1, seatsPerRow, p - |g|);
          }
        }
      }
    }
  }

  lemma HallSeatsPairsDistinct(showtimeId: string, hall: AdminHall)
    ensures forall p, q :: 0 <= p < q < |HallSeats(showtimeId, hall)| ==>
              Place(HallSeats(showtimeId, hall)[p]) != Place(HallSeats(showtimeId, hall)[q])
  {
    RowLettersDistinct(hall.rows);
    SeatGridPairsDistinct(showtimeId, RowLetters(hall.rows), RowCount(hall.rows), Max(hall.seatsPerRow, 0));
  }

  // ------------------------------------------------------------- submit

  /** `halls.find(h => h.id === id)` */
  function FindHall(halls: seq<AdminHall>, id: string): (found: Option<AdminHall>)
    ensures found.None? <==> forall h :: h in halls ==> h.id != id
    ensures found.Some? ==> found.value in halls && found.value.id == id
    ensures found.Some? ==> forall i :: 0 <= i < |halls| && halls[i].id == id ==> found.value == halls[i] || exists k :: 0 <= k < i && halls[k] == found.value
  {
    if halls == [] then None
    else if halls[0].id == id then Some(halls[0])
    else
      var r := FindHall(halls[1..], id);
      assert forall h :: h in halls ==> h == halls[0] || h in halls[1..];
      assert r.Some? ==> forall i :: 1 <= i < |halls| && halls[i].id == id ==> r.value == halls[1..][i - 1] || exists k :: 0 <= k < i - 1 && halls[1..][k] == r.value;
      r
  }

  /** What submitting the dialog ends in. */
  datatype Outcome =
    | Invalid                               // the schema refused the form; onSubmit is not called
    | NoMovie                               // "Please select a movie"
    | NoHall                                // "Please select a hall"
    | InsertFailed                          // the showtime insert reported an error
    | SeatsFailed(showtimeId: string)       // the showtime exists but its seats were refused
    | Created(showtimeId: string, seats: seq<NewSeat>)

  /** The dialog's own state: the loaded halls, the chosen movie and hall and
      whether the dialog is open. */
  class Dialog {
    var halls: seq<AdminHall>
    var selectedMovie: string
    var selectedHall: string
    var open: bool

    constructor (halls: seq<AdminHall>)
      ensures this.halls == halls && selectedMovie == "" && selectedHall == "" && !open
    {
      this.halls := halls;
      selectedMovie := "";
      selectedHall := "";
      open := false;
    }

    /** `handleSubmit(onSubmit)`: the schema first, then the movie and hall
        guards, then the showtime insert (its returned id, or None on error)
        and, when the chosen hall is among the loaded ones, its seats (the
        seat insert's success as `seatsInsertOk`). A created showtime closes
        the dialog and clears both choices; every other outcome leaves the
        state as it was. */
    method Submit(data: FormData, insertedId: Option<string>, seatsInsertOk: bool) returns (outcome: Outcome)
      modifies this
      ensures halls == old(halls)
      ensures !ValidForm(data) ==> outcome == Invalid
      ensures ValidForm(data) && old(selectedMovie) == "" ==> outcome == NoMovie
      ensures ValidForm(data) && old(selectedMovie) != "" && old(selectedHall) == "" ==> outcome == NoHall
      ensures ValidForm(data) && old(selectedMovie) != "" && old(selectedHall) != "" && insertedId.None? ==> outcome == InsertFailed
      ensures outcome.SeatsFailed? ==> FindHall(halls, old(selectedHall)).Some? && !seatsInsertOk
      ensures outcome.Created? ==>
                ValidForm(data) && old(selectedMovie) != "" && old(selectedHall) != "" && insertedId == Some(outcome.showtimeId)
                && outcome.seats == (match FindHall(halls, old(selectedHall))
                                     case None => []
                                     case Some(h) => HallSeats(outcome.showtimeId, h))
      ensures ValidForm(data) && old(selectedMovie) != "" && old(selectedHall) != "" && insertedId.Some? ==>
                outcome.Created? || outcome.SeatsFailed?
      ensures outcome.Created? ==> selectedMovie == "" && selectedHall == "" && !open
      ensures !outcome.Created? ==> selectedMovie == old(selectedMovie) && selectedHall == old(selectedHall) && open == old(open)
    {
      if !ValidForm(data) {
        return Invalid;
      }
      if selectedMovie == "" {
        return NoMovie;
      }
      if selectedHall == "" {
        return NoHall;
      }
      if insertedId.None? {
        return InsertFailed;
      }
      var showtimeId := insertedId.value;
      var seats: seq<NewSeat> := [];
      var hall := FindHall(halls, selectedHall);
      if hall.Some? {
        seats := GenerateSeats(showtimeId, hall.value);
        if !seatsInsertOk {
          return SeatsFailed(showtimeId);
        }
      }
      selectedMovie := "";
      selectedHall := "";
      open := false;
      return Created(showtimeId, seats);
    }
  }
}
