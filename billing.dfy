/** Exit billing: elapsed minutes, billed hours and the amount charged.

    Time is measured in whole, non-negative seconds. For a non-negative
    elapsed time, truncating `seconds / 60` toward zero (as the program does
    with `int(...)`) is the same as Dafny's floor division.
 */
module Billing {

  /** Price of one billed hour, in the lot's currency unit. */
  const RatePerHour: nat := 20

  /** Whole minutes in `elapsed` seconds, rounded down. */
  function Minutes(elapsed: nat): (m: nat)
    ensures m * 60 <= elapsed < m * 60 + 60
  {
    elapsed / 60
  }

  /** Billed hours: whole hours rounded down, but never fewer than one. */
  function Hours(minutes: nat): (h: nat)
    ensures h >= 1
    ensures minutes < 120 ==> h == 1
    ensures minutes >= 60 ==> h * 60 <= minutes < h * 60 + 60
  {
    var whole := minutes / 60;
    if whole < 1 then 1 else whole
  }

  /** Amount charged for a stay of `minutes` whole minutes. */
  function Fee(minutes: nat): (amount: nat)
    ensures amount >= RatePerHour
    ensures amount % RatePerHour == 0
    ensures minutes < 120 ==> amount == RatePerHour
  {
    Hours(minutes) * RatePerHour
  }

  /** Amount charged for a stay of `elapsed` seconds. */
  function FeeForStay(elapsed: nat): (amount: nat)
    ensures amount >= RatePerHour && amount % RatePerHour == 0
    ensures elapsed < 7200 ==> amount == RatePerHour
  {
    Fee(Minutes(elapsed))
  }

  /** Hours rounded up: the reference rule "every started hour is billed". */
  function CeilHours(minutes: nat): (h: nat)
    ensures (h - 1) * 60 < minutes <= h * 60 || (minutes == 0 && h == 0)
  {
    (minutes + 59) / 60
  }

  lemma HoursMonotone(m1: nat, m2: nat)
    requires m1 <= m2
    ensures Hours(m1) <= Hours(m2)
  {
  }

  /** A longer stay never costs less. */
  lemma FeeMonotone(m1: nat, m2: nat)
    requires m1 <= m2
    ensures Fee(m1) <= Fee(m2)
  {
  }

  /** The same holds when the stay is measured in seconds. */
  lemma FeeForStayMonotone(e1: nat, e2: nat)
    requires e1 <= e2
    ensures FeeForStay(e1) <= FeeForStay(e2)
  {
  }

  /** Every extra whole hour adds exactly one rate, from the second hour on. */
  lemma FeeNextHour(minutes: nat)
    requires minutes >= 60
    ensures Fee(minutes + 60) == Fee(minutes) + RatePerHour
  {
  }

  /** The charge never exceeds the "every started hour" charge, and equals it
      exactly when the stay is at most one hour or a whole number of hours. */
  lemma FeeVersusStartedHours(minutes: nat)
    requires minutes > 0
    ensures Fee(minutes) <= CeilHours(minutes) * RatePerHour
    ensures Fee(minutes) == CeilHours(minutes) * RatePerHour
        <==> (minutes <= 60 || minutes % 60 == 0)
  {
  }

  /** The figures quoted for a rate of 20: 0 min, 119 min and 125 min. */
  lemma FeeExamples()
    ensures Fee(0) == 20 && Fee(119) == 20 && Fee(125) == 40
    ensures FeeForStay(125 * 60) == 40
  {
  }
}
