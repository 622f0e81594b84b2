/** The movie page (src/pages/MovieDetail.tsx): seat selection, the price
    of a booking with the "free show" rule, the receipt figures and the
    proceed sequence that marks seats sold, records the booking and then
    either shows the receipt or releases the seats. */
module MovieDetail {
  import opened Types
  import Collections
  import BookingSummary
  import AuthContext
  import Profile

  const MaxSelectedSeats := 10
  const FreeSeatsLimit := 2

  // ---------------------------------------------------------- selection

  /** Some entry of `seats` has the id `id`. */
  predicate HasId(seats: seq<Seat>, id: string)
  {
    exists i :: 0 <= i < |seats| && seats[i].id == id
  }

  /** No two entries share an id. */
  predicate DistinctIds(seats: seq<Seat>)
  {
    forall i, j :: 0 <= i < j < |seats| ==> seats[i].id != seats[j].id
  }

  function OtherId(id: string): Seat -> bool
  {
    (s: Seat) => s.id != id
  }

  /** `handleSeatSelect(seat)`: a seat whose id is already selected is
      dropped (every entry with that id); otherwise it is appended, unless 10
      seats are already selected. */
  function ToggleSeat(prev: seq<Seat>, seat: Seat): (next: seq<Seat>)
    ensures HasId(prev, seat.id) ==> next == Collections.Filter(prev, OtherId(seat.id))
    ensures !HasId(prev, seat.id) && |prev| >= MaxSelectedSeats ==> next == prev
    ensures !HasId(prev, seat.id) && |prev| < MaxSelectedSeats ==> next == prev + [seat]
  {
    if HasId(prev, seat.id) then Collections.Filter(prev, OtherId(seat.id))
    else if |prev| >= MaxSelectedSeats then prev
    else prev + [seat]
  }

  /** After a toggle that drops a seat, no entry carries its id. */
  lemma ToggleOffRemovesEveryCopy(prev: seq<Seat>, seat: Seat)
    requires HasId(prev, seat.id)
    ensures !HasId(ToggleSeat(prev, seat), seat.id)
    ensures forall s :: s in ToggleSeat(prev, seat) <==> s in prev && s.id != seat.id
  {
    var next := ToggleSeat(prev, seat);
    forall s ensures s in next <==> s in prev && s.id != seat.id {
      Collections.FilterMembers(prev, OtherId(seat.id), s);
    }
  }

  lemma {:induction false} FilterKeepsDistinctIds(xs: seq<Seat>, keep: Seat -> bool)
    requires DistinctIds(xs)
    ensures DistinctIds(Collections.Filter(xs, keep))
  {
    if xs != [] {
      FilterKeepsDistinctIds(xs[1..], keep);
      var r := Collections.Filter(xs[1..], keep);
      if keep(xs[0]) {
        forall s | s in r ensures s.id != xs[0].id {
          Collections.FilterMembers(xs[1..], keep, s);
        }
      }
    }
  }

  /** A selection of at most 10 seats with distinct ids stays so under any
      toggle. */
  lemma ToggleKeepsSelectionValid(prev: seq<Seat>, seat: Seat)
    requires |prev| <= MaxSelectedSeats && DistinctIds(prev)
    ensures |ToggleSeat(prev, seat)| <= MaxSelectedSeats && DistinctIds(ToggleSeat(prev, seat))
  {
    if HasId(prev, seat.id) {
      FilterKeepsDistinctIds(prev, OtherId(seat.id));
    }
  }

  /** Selecting a seat that was not selected (with room left) and then
      clicking it again gives back the original selection. */
  lemma SelectThenDeselect(prev: seq<Seat>, seat: Seat)
    requires !HasId(prev, seat.id) && |prev| < MaxSelectedSeats
    ensures ToggleSeat(ToggleSeat(prev, seat), seat) == prev
  {
    var next := prev + [seat];
    assert next[|prev|].id == seat.id;
    Collections.FilterAppend(prev, [seat], OtherId(seat.id));
    Collections.FilterKeepsAll(prev, OtherId(seat.id));
    assert Collections.Filter([seat], OtherId(seat.id)) == [];
  }

  // ------------------------------------------------------------ pricing

  /** `isFreeShow = user && user.monthlyBookingCount >= 4` */
  function IsFreeShow(user: Option<User>): (free: bool)
    ensures free <==> user.Some? && user.value.monthlyBookingCount >= 4
  {
    user.Some? && user.value.monthlyBookingCount >= 4
  }

  /** The price of the first `FREE_SEATS_LIMIT` selected seats. */
  function FreeAmount(seats: seq<Seat>, p: Prices): real
  {
    BookingSummary.FreeAmount(seats, p, FreeSeatsLimit)
  }

  /** The final price `handleProceed` books: the subtotal less the discount,
      and on a free show also less the first two seats, never below zero. */
  function FinalPrice(seats: seq<Seat>, p: Prices, isFree: bool, discount: real): (r: real)
    ensures r >= 0.0
    ensures !isFree ==> r == NotBelowZero(BookingSummary.SeatsTotal(seats, p) - discount)
    ensures isFree ==> r == NotBelowZero(BookingSummary.SeatsTotal(seats, p) - FreeAmount(seats, p) - discount)
  {
    var subtotal := BookingSummary.SeatsTotal(seats, p);
    if isFree then NotBelowZero(subtotal - FreeAmount(seats, p) - discount)
    else NotBelowZero(subtotal - discount)
  }

  /** With non-negative prices and discount the final price never exceeds
      the subtotal, and a free show is never dearer than a paid one. */
  lemma FinalPriceBounds(seats: seq<Seat>, p: Prices, isFree: bool, discount: real)
    requires NonNegativePrices(p) && discount >= 0.0
    ensures FinalPrice(seats, p, isFree, discount) <= BookingSummary.SeatsTotal(seats, p)
    ensures FinalPrice(seats, p, true, discount) <= FinalPrice(seats, p, false, discount)
  {
    var k := Min(FreeSeatsLimit, |seats|);
    assert seats == seats[..k] + seats[k..];
    BookingSummary.SeatsTotalBounds(seats[..k], seats[k..], p);
  }

  /** On a free show with at most two seats and no negative discount the
      booking costs nothing. */
  lemma FreeShowOfTwoSeatsCostsNothing(seats: seq<Seat>, p: Prices, discount: real)
    requires |seats| <= FreeSeatsLimit && discount >= 0.0
    ensures FinalPrice(seats, p, true, discount) == 0.0
  {
    assert seats[..Min(FreeSeatsLimit, |seats|)] == seats;
  }

  /** On a free show the seats beyond the first two are charged in full:
      the final price is the price of those seats less the discount. */
  lemma FreeShowChargesLaterSeats(seats: seq<Seat>, p: Prices, discount: real)
    requires |seats| > FreeSeatsLimit
    ensures FinalPrice(seats, p, true, discount)
         == NotBelowZero(BookingSummary.SeatsTotal(seats[FreeSeatsLimit..], p) - discount)
  {
    assert seats == seats[..FreeSeatsLimit] + seats[FreeSeatsLimit..];
    BookingSummary.SeatsTotalAppend(seats[..FreeSeatsLimit], seats[FreeSeatsLimit..], p);
  }

  /** What the receipt shows. */
  datatype Receipt = Receipt(totalPrice: real, isFree: bool, freeSeatsCount: nat)

  /** The receipt's figures, computed again from the page state as the
      receipt's own expression does. */
  function ReceiptFor(seats: seq<Seat>, p: Prices, isFree: bool, discount: real): (rc: Receipt)
    ensures rc.totalPrice == FinalPrice(seats, p, isFree, discount)
    ensures rc.freeSeatsCount <= FreeSeatsLimit && rc.freeSeatsCount <= |seats|
    ensures rc.isFree ==> isFree
  {
    var subtotal := BookingSummary.SeatsTotal(seats, p);
    var total := if isFree then NotBelowZero(subtotal - BookingSummary.SeatsTotal(seats[..Min(FreeSeatsLimit, |seats|)], p) - discount)
                 else NotBelowZero(subtotal - discount);
    Receipt(total, isFree && |seats| <= FreeSeatsLimit, if isFree then Min(|seats|, FreeSeatsLimit) else 0)
  }

  /** The receipt total is the final price that was booked; the receipt
      says "free" exactly on a free show of at most two seats, and then the
      total is 0; the free-seat count is min(n, 2) on a free show and 0
      otherwise. */
  lemma ReceiptMatchesBooking(seats: seq<Seat>, p: Prices, isFree: bool, discount: real)
    ensures ReceiptFor(seats, p, isFree, discount).totalPrice == FinalPrice(seats, p, isFree, discount)
    ensures ReceiptFor(seats, p, isFree, discount).isFree <==> isFree && |seats| <= FreeSeatsLimit
    ensures ReceiptFor(seats, p, isFree, discount).isFree && discount >= 0.0 ==>
              ReceiptFor(seats, p, isFree, discount).totalPrice == 0.0
    ensures ReceiptFor(seats, p, isFree, discount).freeSeatsCount == if isFree then Min(|seats|, FreeSeatsLimit) else 0
  {
    if isFree && |seats| <= FreeSeatsLimit && discount >= 0.0 {
      FreeShowOfTwoSeatsCostsNothing(seats, p, discount);
    }
  }

  /** The receipt is rendered after `addBooking` has raised the monthly
      count, and its flag is read again from the updated user. With the
      page's test, the one-seat booking that takes a user from 3 to 4
      bookings is charged 100 but its receipt shows 0. With the profile's
      test, the free booking at count 4 is charged 0 but its receipt,
      read at count 5, shows 100. */
  lemma ReceiptFlipsAfterBooking(u: User, s: Seat, p: Prices, showtimeId: string, now: string)
    requires PriceOf(p, s.kind) == 100.0
    ensures u.monthlyBookingCount == 3 ==>
              var b := MovieBookingFor(u.id, showtimeId, [s], p, IsFreeShow(Some(u)), 0.0, now);
              b.finalPrice == 100.0
              && ReceiptFor([s], p, IsFreeShow(Some(AuthContext.WithBooking(u, b))), 0.0).totalPrice == 0.0
    ensures u.monthlyBookingCount == 4 ==>
              var b := MovieBookingFor(u.id, showtimeId, [s], p, IsFreeShowCorrected(Some(u)), 0.0, now);
              b.finalPrice == 0.0
              && ReceiptFor([s], p, IsFreeShowCorrected(Some(AuthContext.WithBooking(u, b))), 0.0).totalPrice == 100.0
  {
    assert BookingSummary.SeatsTotal([s], p) == BookingSummary.SeatsTotal([], p) + 100.0;
    FreeShowOfTwoSeatsCostsNothing([s], p, 0.0);
    assert Profile.JsRem(4, 5) == 4 && Profile.JsRem(5, 5) == 0;
  }

  // ------------------------------------------------------ free-show rule

  /** The free-show test the profile page's loyalty panel uses: the user's
      count is 4 more than a multiple of 5. */
  function IsFreeShowCorrected(user: Option<User>): (free: bool)
    ensures free <==> user.Some? && Profile.HasEarnedFreeShow(user.value.monthlyBookingCount)
  {
    user.Some? && Profile.HasEarnedFreeShow(user.value.monthlyBookingCount)
  }

  /** The page's test grants a free show to a user with 5 bookings this
      month, whom the profile page tells to book 4 more shows. */
  lemma FreeShowTriggersDisagree(u: User)
    requires u.monthlyBookingCount == 5
    ensures IsFreeShow(Some(u)) && !Profile.HasEarnedFreeShow(u.monthlyBookingCount)
    ensures Profile.RemainingForFreeShow(u.monthlyBookingCount) == 4
  {
  }

  /** The corrected test grants the free show exactly when the profile says
      it was earned, and it comes round once every five bookings. */
  lemma CorrectedFreeShowAgreesWithProfile(u: User)
    requires u.monthlyBookingCount >= 0
    ensures IsFreeShowCorrected(Some(u)) <==> Profile.RemainingForFreeShow(u.monthlyBookingCount) == 0
    ensures IsFreeShowCorrected(Some(u)) <==> u.monthlyBookingCount % 5 == 4
    ensures IsFreeShowCorrected(Some(u)) ==> IsFreeShow(Some(u))
  {
    Profile.LoyaltyCounters(u.monthlyBookingCount);
  }

  // ----------------------------------------------- summary panel vs. page

  /** On a free show of three seats the summary panel shows a total of 0
      while the page books the third seat at full price. */
  lemma SummaryShowsZeroWhileThirdSeatIsCharged(s1: Seat, s2: Seat, s3: Seat, p: Prices)
    requires PriceOf(p, s3.kind) > 0.0
    ensures var props := BookingSummary.Props(MovieBooking, [s1, s2, s3], None, 1, Some(p), true);
            BookingSummary.ShownTotal(props, None) == 0.0
            && FinalPrice([s1, s2, s3], p, true, 0.0) == PriceOf(p, s3.kind)
  {
    FreeShowChargesLaterSeats([s1, s2, s3], p, 0.0);
    assert [s1, s2, s3][FreeSeatsLimit..] == [s3];
    assert BookingSummary.SeatsTotal([s3], p) == BookingSummary.SeatsTotal([], p) + PriceOf(p, s3.kind);
  }

  /** The summary total with the free-seat limit the page passes to it
      (`freeSeatsLimit`): on a free movie show only the first two seats are
      free. */
  function SummaryTotalCorrected(props: BookingSummary.Props, promo: Option<PromoCode>): real
  {
    var subtotal := BookingSummary.Subtotal(props);
    var discount := BookingSummary.Discount(subtotal, promo);
    if props.isFreeShow && props.kind == MovieBooking && props.prices.Some? then
      NotBelowZero(subtotal - BookingSummary.FreeAmount(props.selectedSeats, props.prices.value, FreeSeatsLimit) - discount)
    else BookingSummary.Total(props.isFreeShow, subtotal, discount)
  }

  /** The corrected panel shows, for a movie, exactly what the page books
      with the discount of the applied code. */
  lemma SummaryTotalCorrectedMatchesBooking(seats: seq<Seat>, p: Prices, isFree: bool, promo: Option<PromoCode>)
    ensures SummaryTotalCorrected(BookingSummary.Props(MovieBooking, seats, None, 1, Some(p), isFree), promo)
         == FinalPrice(seats, p, isFree, BookingSummary.Discount(BookingSummary.SeatsTotal(seats, p), promo))
  {
  }

  // --------------------------------------------------- stored discount

  /** The page keeps the discount reported when the code was applied. A 10%
      code applied to one seat of 100 reports 10; after a second seat is
      added the panel shows 180 but the page books 190. */
  lemma StoredDiscountGoesStale(s1: Seat, s2: Seat, p: Prices, promo: PromoCode)
    requires PriceOf(p, s1.kind) == 100.0 && PriceOf(p, s2.kind) == 100.0
    requires promo.kind == Percentage && promo.discount == 10.0
    ensures var stored := BookingSummary.Discount(BookingSummary.SeatsTotal([s1], p), Some(promo));
            var props := BookingSummary.Props(MovieBooking, [s1, s2], None, 1, Some(p), false);
            stored == 10.0
            && BookingSummary.ShownTotal(props, Some(promo)) == 180.0
            && FinalPrice([s1, s2], p, false, stored) == 190.0
  {
    assert BookingSummary.SeatsTotal([s1], p) == BookingSummary.SeatsTotal([], p) + 100.0;
    assert [s1, s2][..1] == [s1];
    assert BookingSummary.SeatsTotal([s1, s2], p) == 200.0;
    var props := BookingSummary.Props(MovieBooking, [s1, s2], None, 1, Some(p), false);
    assert BookingSummary.Subtotal(props) == 200.0;
    assert BookingSummary.Discount(200.0, Some(promo)) == 20.0;
  }

  // ---------------------------------------------------------- proceed

  /** `.update({ status }).in('id', ids)` on the showtime's seat rows: the
      rows whose id is listed get the status, the others keep theirs. */
  function MarkSeats(table: map<string, SeatStatus>, ids: seq<string>, status: SeatStatus): (t: map<string, SeatStatus>)
    ensures t.Keys == table.Keys
    ensures forall k :: k in t && k in ids ==> t[k] == status
    ensures forall k :: k in t && k !in ids ==> t[k] == table[k]
  {
    map k | k in table :: if k in ids then status else table[k]
  }

  /** Releasing seats right after selling them leaves them available and
      every other seat as it was. */
  lemma SellThenRelease(table: map<string, SeatStatus>, ids: seq<string>)
    ensures MarkSeats(MarkSeats(table, ids, Sold), ids, Available) == MarkSeats(table, ids, Available)
  {
  }

  /** `selectedSeats.map(s => s.id)` */
  function SeatIds(seats: seq<Seat>): (ids: seq<string>)
    ensures |ids| == |seats| && forall i :: 0 <= i < |seats| ==> ids[i] == seats[i].id
  {
    seq(|seats|, i requires 0 <= i < |seats| => seats[i].id)
  }

  /** The booking `handleProceed` hands to `addBooking`. */
  function MovieBookingFor(userId: string, showtimeId: string, seats: seq<Seat>, p: Prices, isFree: bool,
                           discount: real, now: string): (b: Booking)
    ensures b.kind == MovieBooking && b.status == Confirmed && b.seats == Some(seats)
    ensures b.totalPrice == BookingSummary.SeatsTotal(seats, p) && b.discount == discount
    ensures b.finalPrice == FinalPrice(seats, p, isFree, discount)
  {
    Booking("", userId, MovieBooking, showtimeId, Some(seats), None, None, BookingSummary.SeatsTotal(seats, p),
            None, discount, FinalPrice(seats, p, isFree, discount), now, Confirmed)
  }

  /** How the profile lists a recorded movie booking: FREE on a free show
      of at most two seats; not FREE when the discount does not cover the
      seats charged (all of them, or those after the second on a free
      show); a saving exactly when a positive discount was taken. */
  lemma MovieBookingListing(userId: string, showtimeId: string, seats: seq<Seat>, p: Prices, isFree: bool,
                            discount: real, now: string)
    ensures var b := MovieBookingFor(userId, showtimeId, seats, p, isFree, discount, now);
            && (isFree && |seats| <= FreeSeatsLimit && discount >= 0.0 ==> Profile.ShowsFree(b))
            && (isFree && |seats| > FreeSeatsLimit ==>
                  (Profile.ShowsFree(b) <==> discount >= BookingSummary.SeatsTotal(seats[FreeSeatsLimit..], p)))
            && (!isFree ==> (Profile.ShowsFree(b) <==> discount >= BookingSummary.SeatsTotal(seats, p)))
            && (Profile.ShowsSaving(b) <==> discount > 0.0)
  {
    if isFree && |seats| <= FreeSeatsLimit && discount >= 0.0 {
      FreeShowOfTwoSeatsCostsNothing(seats, p, discount);
    }
    if isFree && |seats| > FreeSeatsLimit {
      FreeShowChargesLaterSeats(seats, p, discount);
    }
  }

  /** The page's booking state over one showtime's seat table. */
  class Checkout {
    const session: AuthContext.Session
    var seatTable: map<string, SeatStatus>
    var selectedSeats: seq<Seat>
    var discount: real
    var bookingId: string
    var showReceipt: bool
    var redirectedToAuth: bool
    var bookingSeatRows: seq<(string, string)>

    constructor (session: AuthContext.Session, seatTable: map<string, SeatStatus>)
      ensures this.session == session && this.seatTable == seatTable
      ensures selectedSeats == [] && discount == 0.0 && bookingId == "" && !showReceipt && !redirectedToAuth
      ensures bookingSeatRows == []
    {
      this.session := session;
      this.seatTable := seatTable;
      selectedSeats := [];
      discount := 0.0;
      bookingId := "";
      showReceipt := false;
      redirectedToAuth := false;
      bookingSeatRows := [];
    }

    /** A click on a seat of the map. */
    method SelectSeat(seat: Seat)
      modifies this
      ensures selectedSeats == ToggleSeat(old(selectedSeats), seat)
      ensures seatTable == old(seatTable) && discount == old(discount) && showReceipt == old(showReceipt)
      ensures bookingId == old(bookingId) && redirectedToAuth == old(redirectedToAuth)
      ensures bookingSeatRows == old(bookingSeatRows)
    {
      selectedSeats := ToggleSeat(selectedSeats, seat);
    }

    /** `onPromoApply`: the summary panel reports a discount. */
    method SetDiscount(d: real)
      modifies this
      ensures discount == d && selectedSeats == old(selectedSeats) && seatTable == old(seatTable)
      ensures bookingId == old(bookingId) && showReceipt == old(showReceipt)
      ensures redirectedToAuth == old(redirectedToAuth) && bookingSeatRows == old(bookingSeatRows)
    {
      discount := d;
    }

    /** `handleProceed` as written. Without a session it only redirects;
        without a showtime or seats it does nothing; when marking the seats
        sold fails it stops. Otherwise the seats are sold, the booking is
        recorded in the session, and since `addBooking` returns nothing the
        "failed" branch always runs: the same seats are set back to
        available and no receipt is shown. `soldWhenSaved` is the seat table
        at the moment the booking is recorded. */
    method HandleProceed(showtime: Option<Showtime>, seatUpdateOk: bool, now: string)
      returns (ghost soldWhenSaved: map<string, SeatStatus>)
      modifies this, session
      ensures selectedSeats == old(selectedSeats) && discount == old(discount)
      ensures bookingId == old(bookingId) && showReceipt == old(showReceipt) && bookingSeatRows == old(bookingSeatRows)
      ensures redirectedToAuth == (old(redirectedToAuth) || old(session.user).None?)
      ensures old(session.user).None? || showtime.None? || old(selectedSeats) == [] || !seatUpdateOk ==>
                seatTable == old(seatTable) && session.user == old(session.user)
      ensures old(session.user).Some? && showtime.Some? && old(selectedSeats) != [] && seatUpdateOk ==>
                soldWhenSaved == MarkSeats(old(seatTable), SeatIds(selectedSeats), Sold)
                && session.user == Some(AuthContext.WithBooking(old(session.user).value,
                     MovieBookingFor(old(session.user).value.id, showtime.value.id, selectedSeats, showtime.value.prices,
                                     IsFreeShow(old(session.user)), discount, now)))
                && seatTable == MarkSeats(old(seatTable), SeatIds(selectedSeats), Available)
    {
      soldWhenSaved := seatTable;
      if !session.IsAuthenticated() {
        redirectedToAuth := true;
        return;
      }
      if showtime.None? || |selectedSeats| == 0 {
        return;
      }
      var p := showtime.value.prices;
      var isFree := IsFreeShow(session.user);
      var booking := MovieBookingFor(session.user.value.id, showtime.value.id, selectedSeats, p, isFree, discount, now);
      var seatIds := SeatIds(selectedSeats);
      if !seatUpdateOk {
        return;
      }
      seatTable := MarkSeats(seatTable, seatIds, Sold);
      soldWhenSaved := seatTable;
      session.AddBooking(booking);
      // `addBooking` returns nothing, so the id is always missing here.
      seatTable := MarkSeats(seatTable, seatIds, Available);
    }

    /** `handleProceed` with a save that returns the new booking's id
        (`savedId`, None when the save fails), the free-show test of the
        profile page, and the discount of the applied code recomputed on the
        current seats. A saved booking is recorded with its id, its seats
        stay sold, one booking-seat row is written per seat and the receipt
        is shown; a failed save records nothing and releases the seats. */
    method HandleProceedCorrected(showtime: Option<Showtime>, seatUpdateOk: bool, now: string,
                                  appliedPromo: Option<PromoCode>, savedId: Option<string>)
      modifies this, session
      ensures selectedSeats == old(selectedSeats)
      ensures redirectedToAuth == (old(redirectedToAuth) || old(session.user).None?)
      ensures old(session.user).None? || showtime.None? || old(selectedSeats) == [] || !seatUpdateOk ==>
                seatTable == old(seatTable) && session.user == old(session.user)
                && bookingId == old(bookingId) && showReceipt == old(showReceipt) && bookingSeatRows == old(bookingSeatRows)
      ensures old(session.user).Some? && showtime.Some? && old(selectedSeats) != [] && seatUpdateOk && savedId.None? ==>
                seatTable == MarkSeats(old(seatTable), SeatIds(selectedSeats), Available)
                && session.user == old(session.user)
                && bookingId == old(bookingId) && showReceipt == old(showReceipt) && bookingSeatRows == old(bookingSeatRows)
      ensures old(session.user).Some? && showtime.Some? && old(selectedSeats) != [] && seatUpdateOk && savedId.Some? ==>
                var p := showtime.value.prices;
                var d := BookingSummary.Discount(BookingSummary.SeatsTotal(selectedSeats, p), appliedPromo);
                seatTable == MarkSeats(old(seatTable), SeatIds(selectedSeats), Sold)
                && session.user == Some(AuthContext.WithBooking(old(session.user).value,
                     MovieBookingFor(old(session.user).value.id, showtime.value.id, selectedSeats, p,
                                     IsFreeShowCorrected(old(session.user)), d, now).(id := savedId.value)))
                && bookingId == savedId.value && showReceipt
                && |bookingSeatRows| == |selectedSeats|
                && forall i :: 0 <= i < |selectedSeats| ==> bookingSeatRows[i] == (savedId.value, selectedSeats[i].id)
    {
      if !session.IsAuthenticated() {
        redirectedToAuth := true;
        return;
      }
      if showtime.None? || |selectedSeats| == 0 {
        return;
      }
      var p := showtime.value.prices;
      var isFree := IsFreeShowCorrected(session.user);
      var subtotal := BookingSummary.SeatsTotal(selectedSeats, p);
      var d := BookingSummary.Discount(subtotal, appliedPromo);
      var seatIds := SeatIds(selectedSeats);
      if !seatUpdateOk {
        return;
      }
      seatTable := MarkSeats(seatTable, seatIds, Sold);
      if savedId.Some? {
        var booking := MovieBookingFor(session.user.value.id, showtime.value.id, selectedSeats, p, isFree, d, now);
        session.AddBooking(booking.(id := savedId.value));
        bookingId := savedId.value;
        var seats := selectedSeats;
        var id := savedId.value;
        bookingSeatRows := seq(|seats|, i requires 0 <= i < |seats| => (id, seats[i].id));
        showReceipt := true;
      } else {
        seatTable := MarkSeats(seatTable, seatIds, Available);
      }
    }
  }
}
