/** The concert section picker and ticket stepper
    (src/components/booking/ConcertSectionSelector.tsx). The component keeps
    no state: it computes the new quantity or section and hands it to its
    parent. */
module ConcertSectionSelector {
  import opened Types

  /** The most tickets one booking may take, as the picker displays it. */
  const MaxTicketsPerBooking := 10

  /** `getSectionName(name)` */
  function SectionName(name: string): (shown: string)
    ensures name == "vip" ==> shown == "VIP Section"
    ensures name == "front" ==> shown == "Front Section"
    ensures name == "middle" ==> shown == "Middle Section"
    ensures name == "back" ==> shown == "Back Section"
    ensures name !in {"vip", "front", "middle", "back"} ==> shown == name
  {
    match name
    case "vip" => "VIP Section"
    case "front" => "Front Section"
    case "middle" => "Middle Section"
    case "back" => "Back Section"
    case _ => name
  }

  /** A section's button: the section handed to `onSectionSelect`, or None
      when the section is sold out and the click is ignored. */
  function SectionClick(section: ConcertSection): (chosen: Option<ConcertSection>)
    ensures chosen.None? <==> section.availableCapacity == 0
    ensures chosen.Some? ==> chosen.value == section
  {
    if section.availableCapacity == 0 then None else Some(section)
  }

  /** The "−" button: `Math.max(1, quantity - 1)`. */
  function Decrement(quantity: int): (q: int)
    ensures q >= 1
    ensures quantity > 1 ==> q == quantity - 1
    ensures quantity <= 1 ==> q == 1
  {
    Max(1, quantity - 1)
  }

  /** The "+" button as written: `Math.min(availableCapacity, quantity + 1)`. */
  function Increment(availableCapacity: int, quantity: int): (q: int)
    ensures q <= availableCapacity
    ensures quantity < availableCapacity ==> q == quantity + 1
    ensures quantity >= availableCapacity ==> q == availableCapacity
  {
    Min(availableCapacity, quantity + 1)
  }

  /** The maximum the picker shows: `Math.min(10, availableCapacity)`. */
  function DisplayedMax(availableCapacity: int): (m: int)
    ensures m <= MaxTicketsPerBooking && m <= availableCapacity
    ensures m == MaxTicketsPerBooking || m == availableCapacity
  {
    Min(MaxTicketsPerBooking, availableCapacity)
  }

  /** Both buttons keep a quantity between 1 and the available capacity:
      "−" never drops below 1, "+" never passes the capacity. */
  lemma SteppersStayWithinCapacity(availableCapacity: int, quantity: int)
    requires 1 <= quantity <= availableCapacity
    ensures 1 <= Decrement(quantity) <= availableCapacity
    ensures 1 <= Increment(availableCapacity, quantity) <= availableCapacity
    ensures Decrement(quantity) <= quantity <= Increment(availableCapacity, quantity)
  {
  }

  /** The "+" button goes past the maximum of 10 the picker displays as
      soon as more than 10 places are free: at 10 tickets out of 20 free it
      offers 11. */
  lemma IncrementPassesDisplayedMax()
    ensures DisplayedMax(20) == 10
    ensures Increment(20, 10) == 11
    ensures Increment(20, 10) > DisplayedMax(20)
  {
  }

  /** The "+" button as the displayed maximum intends:
      `Math.min(Math.min(10, availableCapacity), quantity + 1)`, the rule
      the football page already uses. */
  function IncrementCorrected(availableCapacity: int, quantity: int): (q: int)
    ensures q <= DisplayedMax(availableCapacity)
    ensures quantity < DisplayedMax(availableCapacity) ==> q == quantity + 1
    ensures quantity >= DisplayedMax(availableCapacity) ==> q == DisplayedMax(availableCapacity)
  {
    Min(DisplayedMax(availableCapacity), quantity + 1)
  }

  /** With the corrected "+" and a section that is not sold out, every
      quantity the steppers reach from a valid one stays between 1 and the
      displayed maximum; and the corrected "+" agrees with the written one
      whenever that one stays within the cap. */
  lemma CorrectedSteppersStayWithinDisplayedMax(availableCapacity: int, quantity: int)
    requires availableCapacity >= 1
    requires 1 <= quantity <= DisplayedMax(availableCapacity)
    ensures 1 <= Decrement(quantity) <= DisplayedMax(availableCapacity)
    ensures 1 <= IncrementCorrected(availableCapacity, quantity) <= DisplayedMax(availableCapacity)
    ensures Increment(availableCapacity, quantity) <= MaxTicketsPerBooking ==>
              IncrementCorrected(availableCapacity, quantity) == Increment(availableCapacity, quantity)
  {
  }
}
