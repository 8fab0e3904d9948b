/** The calculation methods of `budget.js`: savings rate, spending check,
    health level and remaining budget. All amounts are exact decimals. */
module Rules {

  /** `calculateSavingsRate`: savings as a percentage of income, 0 when
      there is no positive income. Not clamped. */
  function SavingsRate(totalIncome: real, totalSavings: real): (rate: real)
    ensures totalIncome <= 0.0 ==> rate == 0.0
    ensures totalIncome > 0.0 ==> rate * totalIncome == totalSavings * 100.0
  {
    if totalIncome <= 0.0 then 0.0
    else
      var r := (totalSavings / totalIncome) * 100.0;
      assert r * totalIncome == totalSavings * 100.0 by {
        assert (totalSavings / totalIncome) * totalIncome == totalSavings;
      }
      r
  }

  /** The rate is not clamped: it passes 100 exactly when savings exceed
      income, and is negative exactly when savings are negative. */
  lemma SavingsRateUnclamped(totalIncome: real, totalSavings: real)
    requires totalIncome > 0.0
    ensures SavingsRate(totalIncome, totalSavings) > 100.0 <==> totalSavings > totalIncome
    ensures SavingsRate(totalIncome, totalSavings) == 100.0 <==> totalSavings == totalIncome
    ensures SavingsRate(totalIncome, totalSavings) < 0.0 <==> totalSavings < 0.0
  {
    var r := SavingsRate(totalIncome, totalSavings);
    assert totalSavings * 100.0 == r * totalIncome;
    ScaleByPositive(100.0, r, totalIncome);
    ScaleByPositive(0.0, r, totalIncome);
  }

  /** Multiplying both sides by a positive number keeps the order. */
  lemma ScaleByPositive(a: real, b: real, c: real)
    requires c > 0.0
    ensures a < b <==> a * c < b * c
    ensures a == b <==> a * c == b * c
  {
  }

  /** `isSpendingUnderIncome`: spending is under income exactly when
      nothing would be left short with no savings set aside. */
  function IsSpendingUnderIncome(totalIncome: real, totalExpenses: real): (under: bool)
    ensures under <==> RemainingBudget(totalIncome, totalExpenses, 0.0) >= 0.0
  {
    totalExpenses <= totalIncome
  }

  /** `getRemainingBudget`: what is left of income after expenses and
      savings; negative when they exceed it. */
  function RemainingBudget(totalIncome: real, totalExpenses: real, totalSavings: real): (left: real)
    ensures left + totalExpenses + totalSavings == totalIncome
    ensures left < 0.0 <==> totalExpenses + totalSavings > totalIncome
  {
    totalIncome - totalExpenses - totalSavings
  }

  /** The four levels of `getBudgetHealthLevel`. */
  datatype HealthLevel = Neutral | Healthy | Warning | Danger {
    /** The string the source returns; each string names exactly one level. */
    function Name(): (n: string)
      ensures n == "neutral" <==> this == Neutral
      ensures n == "healthy" <==> this == Healthy
      ensures n == "warning" <==> this == Warning
      ensures n == "danger" <==> this == Danger
    {
      match this
      case Neutral => "neutral"
      case Healthy => "healthy"
      case Warning => "warning"
      case Danger => "danger"
    }

    /** How bad the level is; `Neutral` stands apart with no income. */
    function Severity(): nat {
      match this
      case Neutral => 0
      case Healthy => 0
      case Warning => 1
      case Danger => 2
    }
  }

  /** For positive income, the ratio of expenses to income is at most `c`
      exactly when expenses are at most `c` times income. */
  lemma RatioAtMost(totalExpenses: real, totalIncome: real, c: real)
    requires totalIncome > 0.0
    ensures totalExpenses / totalIncome <= c <==> totalExpenses <= c * totalIncome
  {
    var ratio := totalExpenses / totalIncome;
    assert ratio * totalIncome == totalExpenses;
    if ratio <= c { assert ratio * totalIncome <= c * totalIncome; }
    if ratio > c { assert ratio * totalIncome > c * totalIncome; }
  }

  /** `getBudgetHealthLevel`: neutral without income; otherwise healthy up
      to 70% of income spent, warning up to 90%, danger above. */
  function BudgetHealthLevel(totalIncome: real, totalExpenses: real): (level: HealthLevel)
    ensures level == Neutral <==> totalIncome <= 0.0
    ensures level == Healthy <==> totalIncome > 0.0 && totalExpenses <= 0.7 * totalIncome
    ensures level == Warning <==> totalIncome > 0.0 && 0.7 * totalIncome < totalExpenses <= 0.9 * totalIncome
    ensures level == Danger <==> totalIncome > 0.0 && totalExpenses > 0.9 * totalIncome
  {
    if totalIncome <= 0.0 then Neutral
    else
      var ratio := totalExpenses / totalIncome;
      RatioAtMost(totalExpenses, totalIncome, 0.7);
      RatioAtMost(totalExpenses, totalIncome, 0.9);
      if ratio <= 0.7 then Healthy
      else if ratio <= 0.9 then Warning
      else Danger
  }

  /** For a fixed income, spending more never gives a better level. */
  lemma HealthLevelMonotone(totalIncome: real, lower: real, higher: real)
    requires lower <= higher
    ensures BudgetHealthLevel(totalIncome, lower).Severity() <= BudgetHealthLevel(totalIncome, higher).Severity()
  {
  }
}
