/** The message functions of `budget.js`: the pet-fund and savings-rate
    banners, and the retirement countdown. */
module Messages {
  import opened Wrappers
  import opened Numerals

  // ---------------------------------------------------------------------
  // getWafflesMessage
  // ---------------------------------------------------------------------

  const WAFFLES_500: string := "Waffles is living the good life! Premium treats incoming!"
  const WAFFLES_200: string := "Waffles approves! That's a lot of belly rubs worth of treats!"
  const WAFFLES_100: string := "Waffles is wagging! Treat jar is looking full!"
  const WAFFLES_50: string := "Good start! Waffles can smell the treats already!"
  const WAFFLES_SOME: string := "Every dollar counts toward Waffles' happiness!"
  const WAFFLES_NONE: string := "Waffles is giving you puppy eyes... time to save!"

  /** Six bands over the pet fund's amount; each lower bound is inclusive
      except the "anything positive" band. */
  function WafflesMessage(amount: real): (msg: string)
    ensures msg == WAFFLES_500 <==> amount >= 500.0
    ensures msg == WAFFLES_200 <==> 200.0 <= amount < 500.0
    ensures msg == WAFFLES_100 <==> 100.0 <= amount < 200.0
    ensures msg == WAFFLES_50 <==> 50.0 <= amount < 100.0
    ensures msg == WAFFLES_SOME <==> 0.0 < amount < 50.0
    ensures msg == WAFFLES_NONE <==> amount <= 0.0
  {
    if amount >= 500.0 then WAFFLES_500
    else if amount >= 200.0 then WAFFLES_200
    else if amount >= 100.0 then WAFFLES_100
    else if amount >= 50.0 then WAFFLES_50
    else if amount > 0.0 then WAFFLES_SOME
    else WAFFLES_NONE
  }

  // ---------------------------------------------------------------------
  // getSavingsMessage
  // ---------------------------------------------------------------------

  const SAVINGS_30: string := "Riding a massive wave! Incredible savings!"
  const SAVINGS_20: string := "Catching great waves! Well above target!"
  const SAVINGS_10: string := "Riding the wave! You hit your 10% target!"
  const SAVINGS_5: string := "Paddle harder! Getting close to the 10% target."
  const SAVINGS_SOME: string := "Getting your feet wet. Keep building that savings wave!"
  const SAVINGS_NONE: string := "Still on the shore. Time to paddle out!"

  /** Six bands over the savings rate in percent, first match wins. */
  function SavingsMessage(rate: real): (msg: string)
    ensures msg == SAVINGS_30 <==> rate >= 30.0
    ensures msg == SAVINGS_20 <==> 20.0 <= rate < 30.0
    ensures msg == SAVINGS_10 <==> 10.0 <= rate < 20.0
    ensures msg == SAVINGS_5 <==> 5.0 <= rate < 10.0
    ensures msg == SAVINGS_SOME <==> 0.0 < rate < 5.0
    ensures msg == SAVINGS_NONE <==> rate <= 0.0
  {
    if rate >= 30.0 then SAVINGS_30
    else if rate >= 20.0 then SAVINGS_20
    else if rate >= 10.0 then SAVINGS_10
    else if rate >= 5.0 then SAVINGS_5
    else if rate > 0.0 then SAVINGS_SOME
    else SAVINGS_NONE
  }

  /** The 10% boundary: exactly 10 hits the target, anything just below
      is told to paddle harder. */
  lemma SavingsTargetBoundary(below: real)
    requires 5.0 <= below < 10.0
    ensures SavingsMessage(10.0) == SAVINGS_10
    ensures SavingsMessage(below) == SAVINGS_5
  {
  }

  // ---------------------------------------------------------------------
  // getRetirementCountdown
  // ---------------------------------------------------------------------

  /** 365.25 days in milliseconds. */
  const MS_PER_YEAR: int := 31_557_600_000
  /** 30.44 days in milliseconds. */
  const MS_PER_MONTH: int := 2_630_016_000

  const ENDLESS_SUMMER: string := "The endless summer has begun!"

  /** `{ years, months, message }`. */
  datatype Countdown = Countdown(years: nat, months: nat, message: string)

  /** "1 year", "0 years", "2 months": the count and the unit, with an "s"
      unless the count is exactly 1. */
  function Quantity(n: nat, unit: string): (text: string)
    requires unit != [] && unit[|unit| - 1] != 's'
    ensures |text| > 0 && (text[|text| - 1] == 's' <==> n != 1)
  {
    NatToString(n) + " " + unit + (if n != 1 then "s" else "")
  }

  /** `Math.floor(a / d)` for a positive divisor is Dafny's `a / d`. */
  lemma FloorDivision(a: int, d: int)
    requires d > 0
    ensures (a / d) * d <= a < (a / d + 1) * d
    ensures a % d == a - (a / d) * d
  {
  }

  /** `getRetirementCountdown`, with the current time in milliseconds as a
      parameter and the retirement date as a millisecond timestamp (`None`
      when the profile has none). */
  function RetirementCountdown(retirementDate: Option<int>, now: int): (r: Option<Countdown>)
    ensures r.None? <==> retirementDate.None?
    ensures retirementDate.Some? && retirementDate.value <= now ==> r == Some(Countdown(0, 0, ENDLESS_SUMMER))
    ensures retirementDate.Some? && retirementDate.value > now ==>
      var diff := retirementDate.value - now;
      && r.Some?
      && r.value.years * MS_PER_YEAR <= diff < (r.value.years + 1) * MS_PER_YEAR
      && r.value.months * MS_PER_MONTH <= diff - r.value.years * MS_PER_YEAR < (r.value.months + 1) * MS_PER_MONTH
      && r.value.months <= 11
      && r.value.message == Quantity(r.value.years, "year") + " and " + Quantity(r.value.months, "month")
                            + " until the endless summer"
  {
    match retirementDate
    case None => None
    case Some(target) =>
      var diff := target - now;
      if diff <= 0 then Some(Countdown(0, 0, ENDLESS_SUMMER))
      else
        var years := diff / MS_PER_YEAR;
        var rest := diff % MS_PER_YEAR;
        var months := rest / MS_PER_MONTH;
        FloorDivision(diff, MS_PER_YEAR);
        FloorDivision(rest, MS_PER_MONTH);
        assert rest == diff - years * MS_PER_YEAR;
        var message := Quantity(years, "year") + " and " + Quantity(months, "month") + " until the endless summer";
        Some(Countdown(years, months, message))
  }

  /** About eighteen months ahead reads as one year and six months. */
  lemma EighteenMonthsAhead(now: int)
    ensures var r := RetirementCountdown(Some(now + 18 * MS_PER_MONTH), now);
      r.Some? && r.value.years == 1 && r.value.months == 6
  {
  }
}
