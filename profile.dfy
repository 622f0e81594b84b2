/** The loyalty panel and booking list of the profile page
    (src/pages/Profile.tsx). */
module Profile {
  import opened Types

  /** JavaScript's `a % n` for n > 0: the remainder takes the sign of `a`. */
  function JsRem(a: int, n: int): (r: int)
    requires n > 0
    ensures a >= 0 ==> r == a % n
    ensures -n < r < n
  {
    if a >= 0 then a % n else -((-a) % n)
  }

  /** `4 - (monthlyBookingCount % 5)`: for a count that is not negative,
      between 0 and 4, and exactly the number of further bookings that
      bring the count to 4 more than a multiple of 5. */
  function RemainingForFreeShow(count: int): (left: int)
    ensures count >= 0 ==> 0 <= left <= 4 && (count + left) % 5 == 4
  {
    var r := JsRem(count, 5);
    assert count >= 0 ==> count + (4 - r) == 5 * (count / 5) + 4;
    4 - r
  }

  /** `monthlyBookingCount >= 4 && monthlyBookingCount % 5 === 4`: for a
      count that is not negative, earned exactly when the count is 4 more
      than a multiple of 5. */
  function HasEarnedFreeShow(count: int): (earned: bool)
    ensures count >= 0 ==> (earned <==> count % 5 == 4)
  {
    count >= 4 && JsRem(count, 5) == 4
  }

  /** The width of the progress bar, in percent: a quarter more per booking
      made, full exactly when the free show is earned. */
  function ProgressWidth(count: int): (w: int)
    ensures count >= 0 ==> w == 100 - 25 * RemainingForFreeShow(count)
    ensures count >= 0 ==> (w == 100 <==> HasEarnedFreeShow(count))
  {
    JsRem(count, 5) * 25
  }

  /** For a count that is not negative: at most 4 shows remain; the free show
      is earned exactly when the count is 4 more than a multiple of 5, which
      is exactly when none remain; otherwise 1 to 4 remain and the bar is at
      most three-quarters full. */
  lemma LoyaltyCounters(count: int)
    requires count >= 0
    ensures 0 <= RemainingForFreeShow(count) <= 4
    ensures HasEarnedFreeShow(count) <==> count % 5 == 4
    ensures HasEarnedFreeShow(count) <==> RemainingForFreeShow(count) == 0
    ensures !HasEarnedFreeShow(count) ==> 1 <= RemainingForFreeShow(count) <= 4 && 0 <= ProgressWidth(count) <= 75
    ensures 0 <= ProgressWidth(count) <= 100
  {
  }

  /** The reward comes round every five bookings. */
  lemma EarnedEveryFifth(count: int)
    requires count >= 0
    ensures HasEarnedFreeShow(count + 5) == HasEarnedFreeShow(count)
    ensures RemainingForFreeShow(count + 5) == RemainingForFreeShow(count)
  {
    var q, r := count / 5, count % 5;
    assert count + 5 == 5 * (q + 1) + r && 0 <= r < 5;
    assert JsRem(count + 5, 5) == r;
    assert JsRem(count, 5) == r;
  }

  /** A booking is listed as FREE exactly when its final price is 0. */
  function ShowsFree(b: Booking): bool
  {
    b.finalPrice == 0.0
  }

  /** A saving is listed exactly when the booking had a positive discount. */
  function ShowsSaving(b: Booking): bool
  {
    b.discount > 0.0
  }
}
