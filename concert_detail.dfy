/** The concert page (src/pages/ConcertDetail.tsx): the price of a concert
    booking, its id, the booking it records in the session and the total
    its receipt shows. The clock is a parameter. */
module ConcertDetail {
  import opened Types
  import Text
  import AuthContext
  import MovieDetail
  import ConcertSectionSelector
  import Profile
  import BookingSummary
  import MockData

  /** `selectedSection.price * quantity` */
  function Subtotal(section: ConcertSection, quantity: int): real
  {
    section.price * quantity as real
  }

  /** `isFreeShow ? 0 : Math.max(0, subtotal - discount)`: a free show costs
      nothing whatever the quantity. */
  function FinalPrice(section: ConcertSection, quantity: int, isFree: bool, discount: real): (r: real)
    ensures r >= 0.0
    ensures isFree ==> r == 0.0
    ensures !isFree ==> r >= Subtotal(section, quantity) - discount
    ensures !isFree ==> r == 0.0 || r == Subtotal(section, quantity) - discount
  {
    if isFree then 0.0 else NotBelowZero(Subtotal(section, quantity) - discount)
  }

  /** With a non-negative price, quantity and discount, a booking never costs
      more than its subtotal, and a discount that fits is taken off in full. */
  lemma FinalPriceBounds(section: ConcertSection, quantity: int, isFree: bool, discount: real)
    requires section.price >= 0.0 && quantity >= 0 && discount >= 0.0
    ensures 0.0 <= FinalPrice(section, quantity, isFree, discount) <= Subtotal(section, quantity)
    ensures !isFree && discount <= Subtotal(section, quantity) ==>
              FinalPrice(section, quantity, isFree, discount) == Subtotal(section, quantity) - discount
  {
    assert Subtotal(section, quantity) >= 0.0;
  }

  /** `TIX${Date.now().toString().slice(-8)}` for a clock reading `now`. */
  function BookingIdFor(now: nat): (id: string)
    ensures 4 <= |id| <= 11
    ensures id[..3] == "TIX"
    ensures forall i :: 3 <= i < |id| ==> '0' <= id[i] <= '9'
    ensures now >= 10 ==> |id| >= 5
  {
    "TIX" + Text.LastN(Text.NatToString(now), 8)
  }

  /** Clock readings of at least eight digits give eleven-character ids
      made of "TIX" and the reading's last eight digits. */
  lemma BookingIdShape(now: nat)
    requires now >= 10000000
    ensures |BookingIdFor(now)| == 11
    ensures BookingIdFor(now)[3..] == Text.NatToString(now)[|Text.NatToString(now)| - 8..]
  {
    EightDigits(now, 7);
  }

  lemma {:induction false} EightDigits(n: nat, k: nat)
    requires n >= Pow10(k)
    ensures |Text.NatToString(n)| >= k + 1
    decreases k
  {
    if k > 0 {
      assert n / 10 >= Pow10(k - 1);
      EightDigits(n / 10, k - 1);
    }
  }

  function Pow10(k: nat): (p: nat)
    ensures p >= 1
  {
    if k == 0 then 1 else 10 * Pow10(k - 1)
  }

  /** The booking `handleProceed` records. */
  function ConcertBookingFor(id: string, userId: string, concertId: string, section: ConcertSection,
                             quantity: int, isFree: bool, discount: real, bookingDate: string): (b: Booking)
    ensures b.id == id && b.userId == userId && b.showId == concertId
    ensures b.kind == ConcertBooking && b.status == Confirmed
    ensures b.section == Some(section) && b.quantity == Some(quantity) && b.seats == None
    ensures b.totalPrice == Subtotal(section, quantity) && b.discount == discount
    ensures b.finalPrice == FinalPrice(section, quantity, isFree, discount)
  {
    Booking(id, userId, ConcertBooking, concertId, None, Some(section), Some(quantity), Subtotal(section, quantity),
            None, discount, FinalPrice(section, quantity, isFree, discount), bookingDate, Confirmed)
  }

  // ------------------------------------------------------------ receipt

  /** The receipt's total as written: `isFreeShow ? 0 : price * quantity -
      discount`, with the free-show flag of the render that shows it. */
  function ReceiptTotal(isFree: bool, section: ConcertSection, quantity: int, discount: real): (r: real)
    ensures r <= FinalPrice(section, quantity, isFree, discount)
    ensures r == FinalPrice(section, quantity, isFree, discount) <==> isFree || discount <= Subtotal(section, quantity)
  {
    if isFree then 0.0 else Subtotal(section, quantity) - discount
  }

  /** The written receipt total agrees with the charged price only when the
      flag has not changed and the discount fits in the subtotal. */
  lemma ReceiptTotalAgreesWhenDiscountFits(isFree: bool, section: ConcertSection, quantity: int, discount: real)
    requires discount <= Subtotal(section, quantity)
    ensures ReceiptTotal(isFree, section, quantity, discount) == FinalPrice(section, quantity, isFree, discount)
  {
  }

  lemma FirstVipSection()
    ensures MockData.Concerts()[0].sections[0] == ConcertSection("vip", "vip", 5000.0, 100, 45)
  {
  }

  lemma NinetyPercentEntry()
    ensures MockData.PromoCodes()[1] == PromoCode("PRIYORCHOTOBHAI", 90.0, Percentage, true)
  {
  }

  /** A discount reported for a larger quantity outlives a "−" click: the
      90 % code applied to two VIP tickets of the first mock concert
      (10000) reports 9000; after going down to one ticket (5000) the
      receipt shows -4000 while the recorded booking costs 0. */
  lemma ReceiptTotalGoesNegative()
    ensures var vip := MockData.Concerts()[0].sections[0];
            var promo := MockData.PromoCodes()[1];
            var d := BookingSummary.Discount(Subtotal(vip, 2), Some(promo));
            && vip.name == "vip" && promo.code == "PRIYORCHOTOBHAI" && promo.isActive && d == 9000.0
            && ReceiptTotal(false, vip, 1, d) == -4000.0
            && FinalPrice(vip, 1, false, d) == 0.0
  {
    FirstVipSection();
    NinetyPercentEntry();
    var vip := MockData.Concerts()[0].sections[0];
    assert Subtotal(vip, 2) == 10000.0 && Subtotal(vip, 1) == 5000.0;
    assert BookingSummary.Discount(10000.0, Some(MockData.PromoCodes()[1])) == 9000.0;
  }

  /** The receipt is rendered after `addBooking` has raised the monthly
      count, so it re-reads the free-show flag from the updated user: the
      booking that takes a user from 3 to 4 bookings is charged in full but
      its receipt says it was free. */
  lemma ReceiptFlipsToFreeOnFourthBooking(u: User, section: ConcertSection, id: string, concertId: string,
                                          bookingDate: string)
    requires u.monthlyBookingCount == 3 && section.price == 100.0
    ensures var b := ConcertBookingFor(id, u.id, concertId, section, 1, MovieDetail.IsFreeShow(Some(u)), 0.0, bookingDate);
            var after := AuthContext.WithBooking(u, b);
            b.finalPrice == 100.0 && ReceiptTotal(MovieDetail.IsFreeShow(Some(after)), section, 1, 0.0) == 0.0
  {
  }

  /** The receipt as intended: the final price of the booking it confirms,
      priced with the flag and discount of that booking. */
  function ReceiptTotalCorrected(isFreeAtBooking: bool, section: ConcertSection, quantity: int,
                                 discount: real): (r: real)
    ensures r >= 0.0
    ensures isFreeAtBooking ==> r == 0.0
    ensures !isFreeAtBooking && discount <= Subtotal(section, quantity) ==> r == Subtotal(section, quantity) - discount
    ensures r == 0.0 <==> isFreeAtBooking || discount >= Subtotal(section, quantity)
  {
    FinalPrice(section, quantity, isFreeAtBooking, discount)
  }

  /** The corrected receipt shows exactly what the recorded booking costs. */
  lemma ReceiptCorrectedMatchesBooking(id: string, userId: string, concertId: string, section: ConcertSection,
                                       quantity: int, isFree: bool, discount: real, bookingDate: string)
    ensures ReceiptTotalCorrected(isFree, section, quantity, discount)
            == ConcertBookingFor(id, userId, concertId, section, quantity, isFree, discount, bookingDate).finalPrice
  {
  }

  /** How the profile lists a recorded concert booking: FREE exactly when
      it was a free show or the discount covered the tickets, and with a
      saving exactly when a positive discount was taken. */
  lemma ConcertBookingListing(id: string, userId: string, concertId: string, section: ConcertSection,
                              quantity: int, isFree: bool, discount: real, bookingDate: string)
    ensures var b := ConcertBookingFor(id, userId, concertId, section, quantity, isFree, discount, bookingDate);
            && (Profile.ShowsFree(b) <==> isFree || discount >= Subtotal(section, quantity))
            && (Profile.ShowsSaving(b) <==> discount > 0.0)
  {
    var b := ConcertBookingFor(id, userId, concertId, section, quantity, isFree, discount, bookingDate);
    assert b.finalPrice == ReceiptTotalCorrected(isFree, section, quantity, discount);
  }

  /** The page's booking state. */
  class Checkout {
    const session: AuthContext.Session
    var selectedSection: Option<ConcertSection>
    var quantity: int
    var discount: real
    var showReceipt: bool
    var bookingId: string
    var redirectedToAuth: bool

    constructor (session: AuthContext.Session)
      ensures this.session == session
      ensures selectedSection == None && quantity == 1 && discount == 0.0
      ensures !showReceipt && bookingId == "" && !redirectedToAuth
    {
      this.session := session;
      selectedSection := None;
      quantity := 1;
      discount := 0.0;
      showReceipt := false;
      bookingId := "";
      redirectedToAuth := false;
    }

    /** `onSectionSelect = setSelectedSection`, reached only through the
        picker's sold-out guard; the quantity is kept. */
    method SelectSection(section: ConcertSection)
      modifies this
      ensures selectedSection == (if section.availableCapacity == 0 then old(selectedSection) else Some(section))
      ensures quantity == old(quantity) && discount == old(discount) && showReceipt == old(showReceipt)
      ensures bookingId == old(bookingId) && redirectedToAuth == old(redirectedToAuth)
    {
      var chosen := ConcertSectionSelector.SectionClick(section);
      if chosen.Some? {
        selectedSection := chosen;
      }
    }

    /** `onQuantityChange = setQuantity`, fed by the picker's "−" and "+". */
    method SetQuantity(q: int)
      modifies this
      ensures quantity == q && selectedSection == old(selectedSection) && discount == old(discount)
      ensures showReceipt == old(showReceipt) && bookingId == old(bookingId) && redirectedToAuth == old(redirectedToAuth)
    {
      quantity := q;
    }

    /** `onPromoApply = setDiscount` */
    method SetDiscount(d: real)
      modifies this
      ensures discount == d && selectedSection == old(selectedSection) && quantity == old(quantity)
      ensures showReceipt == old(showReceipt) && bookingId == old(bookingId) && redirectedToAuth == old(redirectedToAuth)
    {
      discount := d;
    }

    /** `handleProceed`: without a session it only redirects; without a
        section or concert it does nothing; otherwise it records the booking,
        priced with the free-show flag of the current user, and shows the
        receipt. */
    method HandleProceed(concert: Option<Concert>, now: nat, bookingDate: string)
      modifies this, session
      ensures selectedSection == old(selectedSection) && quantity == old(quantity) && discount == old(discount)
      ensures redirectedToAuth == (old(redirectedToAuth) || old(session.user).None?)
      ensures old(session.user).None? || selectedSection.None? || concert.None? ==>
                session.user == old(session.user) && showReceipt == old(showReceipt) && bookingId == old(bookingId)
      ensures old(session.user).Some? && selectedSection.Some? && concert.Some? ==>
                && bookingId == BookingIdFor(now) && showReceipt
                && session.user == Some(AuthContext.WithBooking(old(session.user).value,
                     ConcertBookingFor(BookingIdFor(now), old(session.user).value.id, concert.value.id,
                                       selectedSection.value, quantity, MovieDetail.IsFreeShow(old(session.user)),
                                       discount, bookingDate)))
    {
      if !session.IsAuthenticated() {
        redirectedToAuth := true;
        return;
      }
      if selectedSection.None? || concert.None? {
        return;
      }
      var isFree := MovieDetail.IsFreeShow(session.user);
      var section := selectedSection.value;
      var newBookingId := BookingIdFor(now);
      bookingId := newBookingId;
      session.AddBooking(ConcertBookingFor(newBookingId, session.user.value.id, concert.value.id, section,
                                           quantity, isFree, discount, bookingDate));
      showReceipt := true;
    }
  }
}
