/** The football match page (src/pages/FootballDetail.tsx): section choice,
    the ticket stepper, the price of a booking and the order in which the
    booking row and the section's new capacity are written. The backend's
    answers (the signed-in user, whether the insert succeeded) are
    parameters; the two tables are fields. */
module FootballDetail {
  import opened Types
  import ConcertSectionSelector
  import BookingSummary

  datatype FootballSection = FootballSection(id: string, name: string, price: real,
                                             totalCapacity: int, availableCapacity: int, color: string)

  /** The row inserted into `bookings`. */
  datatype BookingRow = BookingRow(userId: string, kind: string, showId: string, sectionName: string,
                                   quantity: int, totalPrice: real, discount: real, finalPrice: real,
                                   status: string)

  /** What `handleBooking` ended with. */
  datatype Outcome = RedirectedToAuth | NothingToBook | NoBackendUser | InsertFailed | Booked

  /** `finalPrice = Math.max(0, price * quantity - discount)` */
  function FinalPrice(section: FootballSection, quantity: int, discount: real): (r: real)
    ensures r >= 0.0
    ensures r >= section.price * quantity as real - discount
    ensures r == 0.0 || r == section.price * quantity as real - discount
  {
    NotBelowZero(section.price * quantity as real - discount)
  }

  /** The booking row for a section, quantity and discount. */
  function BookingRowFor(userId: string, matchId: string, section: FootballSection, quantity: int,
                         discount: real): (row: BookingRow)
    ensures row.kind == "football" && row.status == "confirmed"
    ensures row.userId == userId && row.showId == matchId && row.sectionName == section.name
    ensures row.quantity == quantity && row.discount == discount
    ensures row.totalPrice == section.price * quantity as real
    ensures row.finalPrice == FinalPrice(section, quantity, discount)
  {
    BookingRow(userId, "football", matchId, section.name, quantity,
               section.price * quantity as real, discount, FinalPrice(section, quantity, discount), "confirmed")
  }

  /** The section as the booking panel sees it. */
  function AsConcertSection(s: FootballSection): (c: ConcertSection)
    ensures c.id == s.id && c.name == s.name && c.price == s.price
    ensures c.totalCapacity == s.totalCapacity && c.availableCapacity == s.availableCapacity
  {
    ConcertSection(s.id, s.name, s.price, s.totalCapacity, s.availableCapacity)
  }

  /** With a non-negative price and discount the charge lies between 0 and
      the undiscounted price, and a discount no larger than that price is
      taken off in full. */
  lemma FinalPriceBounds(section: FootballSection, quantity: int, discount: real)
    requires section.price >= 0.0 && quantity >= 0 && discount >= 0.0
    ensures 0.0 <= FinalPrice(section, quantity, discount) <= section.price * quantity as real
    ensures discount <= section.price * quantity as real ==>
              FinalPrice(section, quantity, discount) == section.price * quantity as real - discount
  {
    assert section.price * quantity as real >= 0.0;
  }

  /** When the stored discount is the one the panel computes for the current
      quantity, the panel's total (the page passes no free-show flag) is the
      price the booking row records. */
  lemma PanelTotalIsCharge(section: FootballSection, quantity: int, promo: Option<PromoCode>)
    ensures var props := BookingSummary.Props(ConcertBooking, [], Some(AsConcertSection(section)), quantity, None, false);
            var discount := BookingSummary.Discount(BookingSummary.Subtotal(props), promo);
            BookingSummary.ShownTotal(props, promo) == FinalPrice(section, quantity, discount)
  {
  }

  /** The capacity written back after a booking made within the stepper's
      bounds is never negative and is exactly what was free minus what was
      booked. */
  lemma CapacityWriteBackNonNegative(section: FootballSection, quantity: int)
    requires 1 <= quantity <= ConcertSectionSelector.DisplayedMax(section.availableCapacity)
    ensures 0 <= section.availableCapacity - quantity < section.availableCapacity
  {
  }

  class Page {
    var selectedSection: Option<FootballSection>
    var quantity: int
    var discount: real
    /** The `bookings` rows this page has inserted. */
    var bookings: seq<BookingRow>
    /** `football_sections.available_capacity`, by section id. */
    var capacity: map<string, int>
    var redirectedToAuth: bool

    /** The stepper keeps the quantity between 1 and the displayed maximum
        for a chosen section that has room. */
    ghost predicate Valid()
      reads this
    {
      selectedSection.Some? && selectedSection.value.availableCapacity >= 1 ==>
        1 <= quantity <= ConcertSectionSelector.DisplayedMax(selectedSection.value.availableCapacity)
    }

    constructor (capacity: map<string, int>)
      ensures selectedSection == None && quantity == 1 && discount == 0.0
      ensures bookings == [] && this.capacity == capacity && !redirectedToAuth
      ensures Valid()
    {
      selectedSection := None;
      quantity := 1;
      discount := 0.0;
      bookings := [];
      this.capacity := capacity;
      redirectedToAuth := false;
    }

    /** A click on a section card or stand: sold-out sections ignore it;
        any other becomes the choice, with the quantity reset to 1. */
    method SelectSection(section: FootballSection)
      requires Valid()
      modifies this
      ensures section.availableCapacity == 0 ==> selectedSection == old(selectedSection) && quantity == old(quantity)
      ensures section.availableCapacity != 0 ==> selectedSection == Some(section) && quantity == 1
      ensures discount == old(discount) && bookings == old(bookings) && capacity == old(capacity)
      ensures redirectedToAuth == old(redirectedToAuth)
      ensures Valid()
    {
      if section.availableCapacity != 0 {
        selectedSection := Some(section);
        quantity := 1;
      }
    }

    /** The "−" button, shown once a section is chosen. */
    method Decrement()
      requires selectedSection.Some? && Valid()
      modifies this
      ensures quantity == ConcertSectionSelector.Decrement(old(quantity))
      ensures selectedSection == old(selectedSection) && discount == old(discount)
      ensures bookings == old(bookings) && capacity == old(capacity) && redirectedToAuth == old(redirectedToAuth)
      ensures Valid()
    {
      quantity := Max(1, quantity - 1);
    }

    /** The "+" button: `Math.min(Math.min(10, availableCapacity), quantity + 1)`. */
    method Increment()
      requires selectedSection.Some? && Valid()
      modifies this
      ensures selectedSection == old(selectedSection) && discount == old(discount)
      ensures quantity == ConcertSectionSelector.IncrementCorrected(selectedSection.value.availableCapacity, old(quantity))
      ensures bookings == old(bookings) && capacity == old(capacity) && redirectedToAuth == old(redirectedToAuth)
      ensures Valid()
    {
      var available := selectedSection.value.availableCapacity;
      quantity := Min(Min(10, available), quantity + 1);
    }

    /** `onPromoApply`: the panel reports a discount and the page keeps it. */
    method SetDiscount(d: real)
      modifies this
      ensures discount == d
      ensures selectedSection == old(selectedSection) && quantity == old(quantity)
      ensures bookings == old(bookings) && capacity == old(capacity) && redirectedToAuth == old(redirectedToAuth)
    {
      discount := d;
    }

    /** `handleBooking`. `backendUser` is the id `supabase.auth.getUser()`
        returns, if any; `insertOk` says whether the insert succeeded. The
        capacity is written only after a successful insert, and only a row
        that exists is updated. */
    method HandleBooking(isAuthenticated: bool, matchId: Option<string>, backendUser: Option<string>,
                         insertOk: bool) returns (outcome: Outcome)
      modifies this
      ensures selectedSection == old(selectedSection) && quantity == old(quantity) && discount == old(discount)
      ensures !isAuthenticated ==> outcome == RedirectedToAuth && redirectedToAuth
      ensures isAuthenticated ==> redirectedToAuth == old(redirectedToAuth)
      ensures isAuthenticated && (selectedSection.None? || matchId.None?) ==> outcome == NothingToBook
      ensures isAuthenticated && selectedSection.Some? && matchId.Some? && backendUser.None? ==> outcome == NoBackendUser
      ensures isAuthenticated && selectedSection.Some? && matchId.Some? && backendUser.Some? && !insertOk ==>
                outcome == InsertFailed
      ensures outcome != Booked ==> bookings == old(bookings) && capacity == old(capacity)
      ensures outcome == Booked <==> isAuthenticated && selectedSection.Some? && matchId.Some? && backendUser.Some? && insertOk
      ensures outcome == Booked ==>
                bookings == old(bookings) + [BookingRowFor(backendUser.value, matchId.value, selectedSection.value, quantity, discount)]
      ensures outcome == Booked && selectedSection.value.id in old(capacity) ==>
                capacity == old(capacity)[selectedSection.value.id := selectedSection.value.availableCapacity - quantity]
      ensures outcome == Booked && selectedSection.value.id !in old(capacity) ==> capacity == old(capacity)
      ensures old(Valid()) && outcome == Booked && selectedSection.value.availableCapacity >= 1 ==>
                (selectedSection.value.id in capacity ==> capacity[selectedSection.value.id] >= 0)
    {
      if !isAuthenticated {
        redirectedToAuth := true;
        return RedirectedToAuth;
      }
      if selectedSection.None? || matchId.None? {
        return NothingToBook;
      }
      var section := selectedSection.value;
      if backendUser.None? {
        return NoBackendUser;
      }
      var row := BookingRowFor(backendUser.value, matchId.value, section, quantity, discount);
      if !insertOk {
        return InsertFailed;
      }
      bookings := bookings + [row];
      if section.id in capacity {
        capacity := capacity[section.id := section.availableCapacity - quantity];
      }
      return Booked;
    }
  }
}
