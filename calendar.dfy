/** Proleptic Gregorian calendar arithmetic. A date is an integer day number
  * counted from 0001-01-01, which is day 0 and Go's zero `time.Time`; an
  * instant is an integer number of seconds from 0001-01-01 00:00:00. */
module Calendar {
  const SecondsPerDay: int := 86400
  const SecondsPerHour: int := 3600

  predicate IsLeap(y: int)
  {
    y % 4 == 0 && (y % 100 != 0 || y % 400 == 0)
  }

  /** `time.daysIn`: the length of month `m` of year `y`. */
  function DaysIn(m: int, y: int): (n: int)
    requires 1 <= m <= 12
    ensures 28 <= n <= 31
    ensures n == 29 <==> m == 2 && IsLeap(y)
  {
    if m == 2 then (if IsLeap(y) then 29 else 28)
    else if m == 4 || m == 6 || m == 9 || m == 11 then 30
    else 31
  }

  predicate ValidDate(y: int, m: int, d: int)
  {
    1 <= m <= 12 && 1 <= d <= DaysIn(m, y)
  }

  /** Days from 0001-01-01 to y-m-d, by era arithmetic on a March-based year
    * (400-year eras of 146097 days). */
  function DayNumber(y: int, m: int, d: int): int
    requires 1 <= m <= 12
  {
    var y1 := if m <= 2 then y - 1 else y;
    var era := y1 / 400;
    var yoe := y1 - era * 400;
    var mp := if m > 2 then m - 3 else m + 9;
    var doy := (153 * mp + 2) / 5 + d - 1;
    var doe := yoe * 365 + yoe / 4 - yoe / 100 + doy;
    era * 146097 + doe - 306
  }

  /** `time.Weekday` of a day number: 0 is Sunday, 1 Monday, ... 6 Saturday.
    * 0001-01-01 was a Monday. */
  function Weekday(day: int): (w: int)
    ensures 0 <= w < 7
  {
    (day + 1) % 7
  }

  /** The day an instant falls on, and midnight of a day. */
  function DayOf(t: int): int { t / SecondsPerDay }

  function Midnight(day: int): (t: int)
    ensures DayOf(t) == day
  {
    day * SecondsPerDay
  }

  lemma DayNumberOrigin()
    ensures DayNumber(1, 1, 1) == 0
  {
  }

  lemma Day20240101()
    ensures DayNumber(2024, 1, 1) == 738885
    ensures Weekday(738885) == 1
  {
  }
}
