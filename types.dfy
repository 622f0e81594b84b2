/** The records the booking pages share (src/types/index.ts), plus the small
    numeric helpers (`Math.min`, `Math.max`) the pages use on them. */
module Types {

  datatype Option<+T> = None | Some(value: T)

  function Min(a: int, b: int): (m: int)
    ensures m <= a && m <= b && (m == a || m == b)
  {
    if a <= b then a else b
  }

  function Max(a: int, b: int): (m: int)
    ensures m >= a && m >= b && (m == a || m == b)
  {
    if a >= b then a else b
  }

  /** `Math.max(0, x)` on an amount of money: the amount, or 0 in place
      of a negative one. */
  function NotBelowZero(x: real): (m: real)
    ensures m >= 0.0 && m >= x
    ensures x >= 0.0 ==> m == x
    ensures x < 0.0 ==> m == 0.0
  {
    if 0.0 >= x then 0.0 else x
  }

  /** Row r of a grid with n seats per row ends no later than row b starts. */
  lemma {:induction false} MulStep(a: nat, b: nat, n: nat)
    requires a < b
    ensures a * n + n <= b * n
  {
    if b > a + 1 {
      MulStep(a, b - 1, n);
    }
    assert (b - 1) * n + n == b * n;
  }

  datatype SeatType = Normal | Deluxe | Super

  datatype SeatStatus = Available | Selected | Sold

  datatype Seat = Seat(id: string, row: string, number: int, kind: SeatType, status: SeatStatus)

  /** The three per-type prices of a showtime. */
  datatype Prices = Prices(normal: real, deluxe: real, super: real)

  /** `prices[seat.type]` */
  function PriceOf(p: Prices, t: SeatType): real
  {
    match t
    case Normal => p.normal
    case Deluxe => p.deluxe
    case Super => p.super
  }

  predicate NonNegativePrices(p: Prices)
  {
    p.normal >= 0.0 && p.deluxe >= 0.0 && p.super >= 0.0
  }

  datatype ConcertSection = ConcertSection(id: string, name: string, price: real,
                                           totalCapacity: int, availableCapacity: int)

  datatype Concert = Concert(id: string, title: string, artist: string, genre: string,
                             date: string, time: string, sections: seq<ConcertSection>)

  datatype HallType = MovieHall | ConcertHall

  datatype Hall = Hall(id: string, name: string, kind: HallType, totalSeats: int, rows: int, seatsPerRow: int)

  /** A showtime row as the movie page loads it. */
  datatype Showtime = Showtime(id: string, movieId: string, hallId: string, date: string, time: string,
                               prices: Prices)

  datatype BookingType = MovieBooking | ConcertBooking

  datatype BookingStatus = Confirmed | Cancelled | Used

  datatype Booking = Booking(id: string, userId: string, kind: BookingType, showId: string,
                             seats: Option<seq<Seat>>, section: Option<ConcertSection>,
                             quantity: Option<int>, totalPrice: real, promoCode: Option<string>,
                             discount: real, finalPrice: real, bookingDate: string,
                             status: BookingStatus)

  datatype Role = UserRole | AdminRole

  datatype User = User(id: string, name: string, email: string, phone: Option<string>, role: Role,
                       bookings: seq<Booking>, monthlyBookingCount: int)

  datatype PromoType = Percentage | Fixed

  datatype PromoCode = PromoCode(code: string, discount: real, kind: PromoType, isActive: bool)
}
