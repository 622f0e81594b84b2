/** The booking-summary panel (src/components/booking/BookingSummary.tsx):
    subtotal, promo discount, total, the per-type breakdown, whether the
    proceed button is enabled, and the promo box with its applied code. */
module BookingSummary {
  import opened Types
  import Text
  import Collections
  import MockData

  /** The props the panel is rendered with (defaults already filled in:
      no seats, quantity 1, not free). */
  datatype Props = Props(kind: BookingType, selectedSeats: seq<Seat>, selectedSection: Option<ConcertSection>,
                         quantity: int, prices: Option<Prices>, isFreeShow: bool)

  /** `seats.reduce((total, seat) => total + prices[seat.type], 0)` */
  function SeatsTotal(seats: seq<Seat>, p: Prices): real
  {
    if seats == [] then 0.0 else SeatsTotal(seats[..|seats| - 1], p) + PriceOf(p, seats[|seats| - 1].kind)
  }

  /** Totals add up over consecutive runs of seats. */
  lemma {:induction false} SeatsTotalAppend(a: seq<Seat>, b: seq<Seat>, p: Prices)
    ensures SeatsTotal(a + b, p) == SeatsTotal(a, p) + SeatsTotal(b, p)
    decreases |b|
  {
    if b != [] {
      var n := |b| - 1;
      assert (a + b)[..|a + b| - 1] == a + b[..n];
      SeatsTotalAppend(a, b[..n], p);
    } else {
      assert a + b == a;
    }
  }

  /** With non-negative prices a seat total is at least zero and never
      shrinks when seats are added. */
  lemma {:induction false} SeatsTotalBounds(a: seq<Seat>, b: seq<Seat>, p: Prices)
    requires NonNegativePrices(p)
    ensures 0.0 <= SeatsTotal(a, p) <= SeatsTotal(a + b, p)
    decreases |a|
  {
    SeatsTotalAppend(a, b, p);
    SeatsTotalNonNegative(a, p);
    SeatsTotalNonNegative(b, p);
  }

  lemma {:induction false} SeatsTotalNonNegative(a: seq<Seat>, p: Prices)
    requires NonNegativePrices(p)
    ensures SeatsTotal(a, p) >= 0.0
    decreases |a|
  {
    if a != [] {
      SeatsTotalNonNegative(a[..|a| - 1], p);
    }
  }

  /** `calculateSubtotal()`: the seat total for a movie with prices, price ×
      quantity for a concert with a section, and 0 otherwise. */
  function Subtotal(props: Props): (r: real)
    ensures props.kind == MovieBooking && props.prices.Some? ==> r == SeatsTotal(props.selectedSeats, props.prices.value)
    ensures props.kind == ConcertBooking && props.selectedSection.Some? ==>
              r == props.selectedSection.value.price * props.quantity as real
    ensures (props.kind == MovieBooking && props.prices.None?) || (props.kind == ConcertBooking && props.selectedSection.None?) ==> r == 0.0
  {
    if props.kind == MovieBooking && props.prices.Some? then SeatsTotal(props.selectedSeats, props.prices.value)
    else if props.kind == ConcertBooking && props.selectedSection.Some? then props.selectedSection.value.price * props.quantity as real
    else 0.0
  }

  /** The price of the first `limit` seats: the part of a free show that
      is not charged. */
  function FreeAmount(seats: seq<Seat>, p: Prices, limit: nat): real
  {
    SeatsTotal(seats[..Min(limit, |seats|)], p)
  }

  /** A subtotal built from non-negative prices and quantities is not negative. */
  lemma SubtotalNonNegative(props: Props)
    requires props.prices.Some? ==> NonNegativePrices(props.prices.value)
    requires props.selectedSection.Some? ==> props.selectedSection.value.price >= 0.0
    requires props.quantity >= 0
    ensures Subtotal(props) >= 0.0
  {
    if props.kind == MovieBooking && props.prices.Some? {
      SeatsTotalNonNegative(props.selectedSeats, props.prices.value);
    }
  }

  /** The discount a promo code gives on `subtotal`: a percentage of it, or a
      fixed amount; none without a code. */
  function Discount(subtotal: real, promo: Option<PromoCode>): (d: real)
    ensures promo.None? ==> d == 0.0
    ensures promo.Some? && promo.value.kind != Percentage ==> d == promo.value.discount
    ensures promo.Some? && promo.value.kind == Percentage ==> d * 100.0 == subtotal * promo.value.discount
  {
    match promo
    case None => 0.0
    case Some(p) => if p.kind == Percentage then (subtotal * p.discount) / 100.0 else p.discount
  }

  /** A percentage between 0 and 100 of a non-negative subtotal is a discount
      between 0 and the subtotal, and it grows with the subtotal. */
  lemma PercentageDiscountBounded(subtotal: real, p: PromoCode)
    requires p.kind == Percentage && 0.0 <= p.discount <= 100.0 && subtotal >= 0.0
    ensures 0.0 <= Discount(subtotal, Some(p)) <= subtotal
    ensures forall s :: subtotal <= s ==> Discount(subtotal, Some(p)) <= Discount(s, Some(p))
  {
    var a := subtotal * p.discount;
    assert 0.0 <= a by {
      assert subtotal >= 0.0 && p.discount >= 0.0;
    }
    assert a <= subtotal * 100.0 by {
      assert subtotal * (100.0 - p.discount) >= 0.0;
    }
    assert Discount(subtotal, Some(p)) == a / 100.0;
    forall s | subtotal <= s ensures Discount(subtotal, Some(p)) <= Discount(s, Some(p)) {
      var b := s * p.discount;
      assert a <= b;
      assert Discount(s, Some(p)) == b / 100.0;
    }
  }

  /** `total`: "FREE" (0) on a free show, otherwise the subtotal less the
      discount, never below zero. */
  function Total(isFreeShow: bool, subtotal: real, discount: real): (r: real)
    ensures r >= 0.0
    ensures isFreeShow ==> r == 0.0
    ensures !isFreeShow ==> r >= subtotal - discount && (r == 0.0 || r == subtotal - discount)
    ensures !isFreeShow && discount >= 0.0 && subtotal >= 0.0 ==> r <= subtotal
  {
    if isFreeShow then 0.0 else NotBelowZero(subtotal - discount)
  }

  /** What the panel shows as total for its props and applied promo. */
  function ShownTotal(props: Props, promo: Option<PromoCode>): (r: real)
    ensures r >= 0.0
    ensures props.isFreeShow ==> r == 0.0
    ensures !props.isFreeShow && promo.None? && Subtotal(props) >= 0.0 ==> r == Subtotal(props)
    ensures (promo.Some? && promo.value.kind == Percentage && 0.0 <= promo.value.discount <= 100.0
             && Subtotal(props) >= 0.0) ==> r <= Subtotal(props)
  {
    if promo.Some? && promo.value.kind == Percentage && 0.0 <= promo.value.discount <= 100.0
       && Subtotal(props) >= 0.0 then
      PercentageDiscountBounded(Subtotal(props), promo.value);
      Total(props.isFreeShow, Subtotal(props), Discount(Subtotal(props), promo))
    else
    Total(props.isFreeShow, Subtotal(props), Discount(Subtotal(props), promo))
  }

  /** `canProceed`: a movie needs a seat, a concert a section and a positive
      quantity. */
  function CanProceed(props: Props): (ok: bool)
    ensures props.kind == MovieBooking ==> (ok <==> |props.selectedSeats| > 0)
    ensures props.kind == ConcertBooking ==> (ok <==> props.selectedSection.Some? && props.quantity > 0)
  {
    if props.kind == MovieBooking then |props.selectedSeats| > 0
    else props.selectedSection.Some? && props.quantity > 0
  }

  // ---------------------------------------------------------- breakdown

  function IsKind(t: SeatType): Seat -> bool
  {
    (s: Seat) => s.kind == t
  }

  /** `selectedSeats.filter(s => s.type === t).length` */
  function CountOf(seats: seq<Seat>, t: SeatType): nat
  {
    |Collections.Filter(seats, IsKind(t))|
  }

  /** The place of a type in the breakdown: normal, deluxe, super. */
  function TypeRank(t: SeatType): nat
  {
    match t
    case Normal => 0
    case Deluxe => 1
    case Super => 2
  }

  /** A breakdown line: the type, how many seats of it, and their amount. */
  datatype Line = Line(kind: SeatType, count: nat, amount: real)

  /** The line for one type: its seat count and count × price. */
  function LineFor(seats: seq<Seat>, p: Prices, t: SeatType): Line
  {
    Line(t, CountOf(seats, t), PriceOf(p, t) * CountOf(seats, t) as real)
  }

  /** `['normal', 'deluxe', 'super'].map(...)`: the lines shown under the
      seats, one per type with at least one seat, in that order. */
  function Breakdown(seats: seq<Seat>, p: Prices): (lines: seq<Line>)
    ensures |lines| <= 3
    ensures forall l :: l in lines ==> l.count > 0 && l == LineFor(seats, p, l.kind)
    ensures forall t :: CountOf(seats, t) > 0 <==> exists l :: l in lines && l.kind == t
    ensures forall i, j :: 0 <= i < j < |lines| ==> TypeRank(lines[i].kind) < TypeRank(lines[j].kind)
  {
    var n, d, s := LineFor(seats, p, Normal), LineFor(seats, p, Deluxe), LineFor(seats, p, Super);
    ShownInOrder(n, d, s);
    forall t ensures CountOf(seats, t) > 0 <==> exists l :: l in Shown(n) + Shown(d) + Shown(s) && l.kind == t {
      var l := LineFor(seats, p, t);
      if CountOf(seats, t) > 0 {
        assert l in Shown(n) + Shown(d) + Shown(s);
      }
    }
    Shown(n) + Shown(d) + Shown(s)
  }

  /** The shown lines are the lines with seats, and they keep the order of
      the three types. */
  lemma ShownInOrder(n: Line, d: Line, s: Line)
    requires n.kind == Normal && d.kind == Deluxe && s.kind == Super
    ensures forall l :: l in Shown(n) + Shown(d) + Shown(s) <==>
              (l == n && n.count > 0) || (l == d && d.count > 0) || (l == s && s.count > 0)
    ensures forall i, j :: 0 <= i < j < |Shown(n) + Shown(d) + Shown(s)| ==>
              TypeRank((Shown(n) + Shown(d) + Shown(s))[i].kind) < TypeRank((Shown(n) + Shown(d) + Shown(s))[j].kind)
  {
  }

  function SumAmounts(lines: seq<Line>): real
  {
    if lines == [] then 0.0 else lines[0].amount + SumAmounts(lines[1..])
  }

  lemma {:induction false} CountOfAppendOne(seats: seq<Seat>, s: Seat, t: SeatType)
    ensures CountOf(seats + [s], t) == CountOf(seats, t) + (if s.kind == t then 1 else 0)
  {
    Collections.FilterAppend(seats, [s], IsKind(t));
  }

  lemma LineForAppendOne(seats: seq<Seat>, s: Seat, p: Prices, t: SeatType)
    ensures LineFor(seats + [s], p, t).amount
         == LineFor(seats, p, t).amount + (if s.kind == t then PriceOf(p, t) else 0.0)
  {
    CountOfAppendOne(seats, s, t);
    var c := CountOf(seats, t) as real;
    assert PriceOf(p, t) * (c + 1.0) == PriceOf(p, t) * c + PriceOf(p, t);
  }

  /** The seat total splits by type: count × price summed over the three
      types. */
  lemma {:induction false} SeatsTotalByType(seats: seq<Seat>, p: Prices)
    ensures SeatsTotal(seats, p) == LineFor(seats, p, Normal).amount + LineFor(seats, p, Deluxe).amount
                                    + LineFor(seats, p, Super).amount
    decreases |seats|
  {
    if seats == [] {
      assert CountOf(seats, Normal) == 0 && CountOf(seats, Deluxe) == 0 && CountOf(seats, Super) == 0;
    } else {
      var init := seats[..|seats| - 1];
      var s := seats[|seats| - 1];
      assert seats == init + [s];
      SeatsTotalByType(init, p);
      LineForAppendOne(init, s, p, Normal);
      LineForAppendOne(init, s, p, Deluxe);
      LineForAppendOne(init, s, p, Super);
    }
  }

  /** The breakdown lines add up to the movie subtotal. */
  lemma BreakdownSumsToSubtotal(seats: seq<Seat>, p: Prices)
    ensures SumAmounts(Breakdown(seats, p)) == SeatsTotal(seats, p)
  {
    SeatsTotalByType(seats, p);
    var n, d, s := LineFor(seats, p, Normal), LineFor(seats, p, Deluxe), LineFor(seats, p, Super);
    var ln, ld, ls := Shown(n), Shown(d), Shown(s);
    assert Breakdown(seats, p) == ln + ld + ls;
    SumAmountsAppend(ln, ld);
    SumAmountsAppend(ln + ld, ls);
    ShownSum(seats, p, Normal);
    ShownSum(seats, p, Deluxe);
    ShownSum(seats, p, Super);
  }

  /** A line is shown only when it has seats. */
  function Shown(l: Line): seq<Line>
  {
    if l.count == 0 then [] else [l]
  }

  lemma ShownSum(seats: seq<Seat>, p: Prices, t: SeatType)
    ensures SumAmounts(Shown(LineFor(seats, p, t))) == LineFor(seats, p, t).amount
  {
    var l := LineFor(seats, p, t);
    if l.count == 0 {
      assert PriceOf(p, t) * 0.0 == 0.0;
    } else {
      assert SumAmounts([l]) == l.amount + SumAmounts([]);
    }
  }

  lemma {:induction false} SumAmountsAppend(a: seq<Line>, b: seq<Line>)
    ensures SumAmounts(a + b) == SumAmounts(a) + SumAmounts(b)
  {
    if a != [] {
      assert (a + b)[1..] == a[1..] + b;
      SumAmountsAppend(a[1..], b);
    } else {
      assert a + b == b;
    }
  }

  // ------------------------------------------------------- promo lookup

  /** `promoCodes.find(p => p.code.toUpperCase() === code && p.isActive)` */
  function FindPromo(codes: seq<PromoCode>, key: string): (found: Option<PromoCode>)
    ensures found.Some? ==> found.value in codes && found.value.isActive && Text.ToUpper(found.value.code) == key
    ensures found.None? ==> forall p :: p in codes && p.isActive ==> Text.ToUpper(p.code) != key
  {
    if codes == [] then None
    else if Text.ToUpper(codes[0].code) == key && codes[0].isActive then Some(codes[0])
    else FindPromo(codes[1..], key)
  }

  /** `handleApplyPromo`'s lookup: the trimmed, upper-cased input against
      the active codes. */
  function LookupPromo(codes: seq<PromoCode>, input: string): (found: Option<PromoCode>)
    ensures found.Some? ==> found.value in codes && found.value.isActive
                            && Text.ToUpper(found.value.code) == Text.ToUpper(Text.Trim(input))
    ensures found.None? ==> forall p :: p in codes && p.isActive ==> Text.ToUpper(p.code) != Text.ToUpper(Text.Trim(input))
  {
    FindPromo(codes, Text.ToUpper(Text.Trim(input)))
  }

  /** The lookup ignores the case of what was typed. */
  lemma LookupIgnoresCase(codes: seq<PromoCode>, input: string)
    ensures LookupPromo(codes, Text.ToLower(input)) == LookupPromo(codes, input)
  {
    Text.TrimOfLower(input);
    Text.UpperOfLower(Text.Trim(input));
  }

  /** The panel's own state: what is typed in the promo box and the code
      applied, looked up in the `promoCodes` table. */
  class Summary {
    var promoInput: string
    var appliedPromo: Option<PromoCode>
    const codes: seq<PromoCode>

    constructor ()
      ensures promoInput == "" && appliedPromo == None && codes == MockData.PromoCodes()
    {
      promoInput := "";
      appliedPromo := None;
      codes := MockData.PromoCodes();
    }

    /** The box's `onChange`. */
    method SetInput(text: string)
      modifies this
      ensures promoInput == text && appliedPromo == old(appliedPromo)
    {
      promoInput := text;
    }

    /** `handleApplyPromo` with the current subtotal: a code that matches is
        applied and its discount on this subtotal reported to the parent
        (`onPromoApply`); a miss changes nothing and reports nothing. */
    method ApplyPromo(subtotal: real) returns (reported: Option<real>)
      modifies this
      ensures promoInput == old(promoInput)
      ensures LookupPromo(codes, promoInput).None? ==> appliedPromo == old(appliedPromo) && reported == None
      ensures LookupPromo(codes, promoInput).Some? ==>
                appliedPromo == LookupPromo(codes, promoInput) && reported == Some(Discount(subtotal, appliedPromo))
    {
      var code := Text.ToUpper(Text.Trim(promoInput));
      var promo := FindPromo(codes, code);
      if promo.Some? {
        appliedPromo := promo;
        reported := Some(Discount(subtotal, promo));
      } else {
        reported := None;
      }
    }

    /** `handleRemovePromo`: clears the code and the box and reports a
        discount of 0. */
    method RemovePromo() returns (reported: real)
      modifies this
      ensures appliedPromo == None && promoInput == "" && reported == 0.0
    {
      appliedPromo := None;
      promoInput := "";
      reported := 0.0;
    }
  }

  /** In a table whose codes are distinct and already upper-case, looking
      up a code finds exactly its entry. */
  lemma {:induction false} FindPromoAt(ps: seq<PromoCode>, i: nat)
    requires i < |ps| && ps[i].isActive
    requires forall j :: 0 <= j < |ps| ==> Text.ToUpper(ps[j].code) == ps[j].code
    requires forall j, k :: 0 <= j < k < |ps| ==> ps[j].code != ps[k].code
    ensures FindPromo(ps, ps[i].code) == Some(ps[i])
  {
    if i > 0 {
      FindPromoAt(ps[1..], i - 1);
    }
  }
}
