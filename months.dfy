/**
 The calendar helpers of the Months table. Weekdays are numbered as Python's
 `date.weekday()` numbers them: Monday 0 through Sunday 6.
 */
module Months {
  import opened Results

  const TUESDAY: int := 1
  const SATURDAY: int := 5

  /** Months counted from year 0: consecutive months have consecutive ordinals. */
  function MonthOrdinal(year: int, month: int): int
  {
    12 * year + month - 1
  }

  /** `prev_month`: the (year, month) immediately before the given one. */
  function PrevMonth(year: int, month: int): (r: (int, int))
    ensures 1 <= month <= 12 ==> 1 <= r.1 <= 12
    ensures 1 <= month <= 12 ==> MonthOrdinal(r.0, r.1) == MonthOrdinal(year, month) - 1
    ensures month == 1 ==> r.0 == year - 1
    ensures month != 1 ==> r.0 == year
  {
    if month == 1 then (year - 1, 12) else (year, month - 1)
  }

  /** `meals_served`: staff plus tickets claimed, when both are recorded. */
  function MealsServed(staffAtBreakfast: Option<int>, ticketsClaimed: Option<int>): (r: Option<int>)
    ensures r.Some? <==> staffAtBreakfast.Some? && ticketsClaimed.Some?
    ensures r.Some? ==> r.value - ticketsClaimed.value == staffAtBreakfast.value
  {
    if staffAtBreakfast.None? || ticketsClaimed.None? then None
    else Some(staffAtBreakfast.value + ticketsClaimed.value)
  }

  /** Weekday of day-of-month `dayOfMonth` in a month whose 1st falls on `firstday`. */
  function Weekday(firstday: int, dayOfMonth: int): int
  {
    (firstday + dayOfMonth - 1) % 7
  }

  /** `nth_day(n, day)`: the day of the month of the n-th `day`-weekday,
      given the weekday `firstday` of the month's 1st. */
  function NthDay(firstday: int, n: int, day: int): (r: int)
    ensures 0 <= firstday < 7 && 0 <= day < 7 ==> Weekday(firstday, r) == day
    ensures 0 <= firstday < 7 && 0 <= day < 7 ==> 7 * (n - 1) + 1 <= r <= 7 * n
  {
    var daysToDay := day - firstday;
    if daysToDay >= 0 then daysToDay + 1 + 7 * (n - 1)
    else daysToDay + 8 + 7 * (n - 1)
  }

  /** `meeting_date`: the first Tuesday. */
  function MeetingDay(firstday: int): (r: int)
    ensures 0 <= firstday < 7 ==> Weekday(firstday, r) == TUESDAY && 1 <= r <= 7
  {
    NthDay(firstday, 1, TUESDAY)
  }

  /** `breakfast_date`: the second Saturday. */
  function BreakfastDay(firstday: int): (r: int)
    ensures 0 <= firstday < 7 ==> Weekday(firstday, r) == SATURDAY && 8 <= r <= 14
  {
    NthDay(firstday, 2, SATURDAY)
  }
}
