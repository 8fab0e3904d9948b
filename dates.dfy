/** The date arithmetic of `utils.js` that does not depend on locale or
    time zone: `monthsUntil` and the day banding of `getRelativeDate`. */
module Dates {
  import opened Numerals

  /** A calendar date as `getFullYear`, `getMonth` (0 to 11) and `getDate`
      report it in local time. */
  datatype CalendarDate = CalendarDate(year: int, month: int, day: int)

  /** Months since year 0, the quantity `monthsUntil` subtracts. */
  function MonthIndex(d: CalendarDate): int {
    d.year * 12 + d.month
  }

  /** `monthsUntil`: whole calendar months from `now` to `target`, counting
      only year and month, and 0 when the target month has passed. */
  function MonthsUntil(target: CalendarDate, now: CalendarDate): (months: nat)
    ensures months == 0 <==> MonthIndex(target) <= MonthIndex(now)
    ensures months > 0 ==> months == MonthIndex(target) - MonthIndex(now)
  {
    var m := (target.year - now.year) * 12 + (target.month - now.month);
    if m > 0 then m else 0
  }

  /** The date `k` months after `d`, carrying into the year. */
  function AddMonths(d: CalendarDate, k: nat): CalendarDate
    requires 0 <= d.month < 12
  {
    CalendarDate(d.year + (d.month + k) / 12, (d.month + k) % 12, d.day)
  }

  /** Counting the months to a date `k` months ahead gives `k`, whatever
      the day of the month. */
  lemma MonthsUntilAddMonths(now: CalendarDate, k: nat, day: int)
    requires 0 <= now.month < 12
    ensures MonthsUntil(AddMonths(now, k).(day := day), now) == k
  {
  }

  /** A later target month never gives fewer months. */
  lemma MonthsUntilMonotone(earlier: CalendarDate, later: CalendarDate, now: CalendarDate)
    requires MonthIndex(earlier) <= MonthIndex(later)
    ensures MonthsUntil(earlier, now) <= MonthsUntil(later, now)
  {
  }

  /** 24 hours in milliseconds. */
  const MS_PER_DAY: int := 86_400_000

  /** What `getRelativeDate` returns: a fixed text, or the date handed on
      to `formatDate`. */
  datatype RelativeDate = Text(text: string) | FormatDate(dateMs: int)

  /** `getRelativeDate`, with both instants as millisecond timestamps.
      `days` is the floor of the elapsed days, so a future date gives a
      negative count and falls in the "days ago" band. */
  function RelativeDateOf(dateMs: int, nowMs: int): (r: RelativeDate)
    ensures r == Text("Today") <==> 0 <= nowMs - dateMs < MS_PER_DAY
    ensures r == Text("Yesterday") <==> MS_PER_DAY <= nowMs - dateMs < 2 * MS_PER_DAY
    ensures r.FormatDate? <==> nowMs - dateMs >= 7 * MS_PER_DAY
    ensures r.FormatDate? ==> r.dateMs == dateMs
    ensures nowMs - dateMs < 0 || 2 * MS_PER_DAY <= nowMs - dateMs < 7 * MS_PER_DAY ==>
      exists days :: days * MS_PER_DAY <= nowMs - dateMs < (days + 1) * MS_PER_DAY
                     && r == Text(IntToString(days) + " days ago")
  {
    var diff := nowMs - dateMs;
    var days := diff / MS_PER_DAY;
    assert days * MS_PER_DAY <= diff < (days + 1) * MS_PER_DAY;
    if days == 0 then Text("Today")
    else if days == 1 then Text("Yesterday")
    else if days < 7 then Text(IntToString(days) + " days ago")
    else FormatDate(dateMs)
  }
}
