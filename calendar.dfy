/** Calendar fields of a timestamp, as Spark's `hour`, `dayofmonth`,
    `dayofweek` and `month` and pandas' `.dt.hour` extract them. A timestamp
    is whole seconds since 1970-01-01 00:00:00, read in UTC. */
module Calendar {

  const SecondsPerHour := 3600
  const SecondsPerDay := 86400

  /** Day number of a timestamp: 0 for 1970-01-01, negative before it. */
  function DayNumber(t: int): int
  {
    t / SecondsPerDay
  }

  /** Hour of the day, 0..23: the timestamp lies in the h-th hour of its day. */
  function Hour(t: int): (h: int)
    ensures 0 <= h < 24
    ensures DayNumber(t) * SecondsPerDay + h * SecondsPerHour <= t < DayNumber(t) * SecondsPerDay + (h + 1) * SecondsPerHour
  {
    (t % SecondsPerDay) / SecondsPerHour
  }

  /** Day of the week, 1 = Sunday .. 7 = Saturday; 1970-01-01 was a Thursday (5). */
  function DayOfWeek(t: int): (d: int)
    ensures 1 <= d <= 7
  {
    (DayNumber(t) + 4) % 7 + 1
  }

  /** Hour is the h whose hour-long slice of the day holds the timestamp. */
  lemma HourOfSlice(day: int, h: int, s: int)
    requires 0 <= h < 24 && 0 <= s < SecondsPerHour
    ensures Hour(day * SecondsPerDay + h * SecondsPerHour + s) == h
    ensures DayNumber(day * SecondsPerDay + h * SecondsPerHour + s) == day
  {
    var t := day * SecondsPerDay + h * SecondsPerHour + s;
    assert 0 <= h * SecondsPerHour + s < SecondsPerDay;
    assert t % SecondsPerDay == h * SecondsPerHour + s;
    assert t / SecondsPerDay == day;
  }

  /** The day of the week advances by one each day, Saturday wrapping to Sunday. */
  lemma DayOfWeekNext(t: int)
    ensures DayOfWeek(t + SecondsPerDay) == DayOfWeek(t) % 7 + 1
    ensures Hour(t + SecondsPerDay) == Hour(t)
  {
    assert DayNumber(t + SecondsPerDay) == DayNumber(t) + 1;
    assert (t + SecondsPerDay) % SecondsPerDay == t % SecondsPerDay;
  }

  /** Gregorian leap years. */
  predicate Leap(y: int)
  {
    y % 4 == 0 && (y % 100 != 0 || y % 400 == 0)
  }

  function YearLength(y: int): (n: int)
    ensures n == 365 || n == 366
  {
    if Leap(y) then 366 else 365
  }

  /** The year holding day `days` counted from 1 January of year y, and the
      day's 0-based position inside that year. */
  function YearAndDay(days: int, y: int): (r: (int, int))
    ensures 0 <= r.1 < YearLength(r.0)
    decreases if days < 0 then 1 else 0, if days < 0 then -days else days
  {
    if days < 0 then YearAndDay(days + YearLength(y - 1), y - 1)
    else if days < YearLength(y) then (y, days)
    else YearAndDay(days - YearLength(y), y + 1)
  }

  /** Length of month m (1..12). */
  function MonthLength(m: int, leap: bool): (n: int)
    requires 1 <= m <= 12
    ensures 28 <= n <= 31
  {
    if m == 2 then (if leap then 29 else 28)
    else if m == 4 || m == 6 || m == 9 || m == 11 then 30
    else 31
  }

  /** Days of the year before month m (1..13). */
  function MonthStart(m: int, leap: bool): (n: int)
    requires 1 <= m <= 13
  {
    var l := if leap then 1 else 0;
    if m == 1 then 0 else if m == 2 then 31
    else if m == 3 then 59 + l else if m == 4 then 90 + l
    else if m == 5 then 120 + l else if m == 6 then 151 + l
    else if m == 7 then 181 + l else if m == 8 then 212 + l
    else if m == 9 then 243 + l else if m == 10 then 273 + l
    else if m == 11 then 304 + l else if m == 12 then 334 + l
    else 365 + l
  }

  /** The month starts partition the year: each month begins where the
      previous one ends, and the thirteenth start is the year's length. */
  lemma MonthStartsPartitionYear(m: int, leap: bool)
    requires 1 <= m <= 12
    ensures MonthStart(m + 1, leap) == MonthStart(m, leap) + MonthLength(m, leap)
    ensures MonthStart(1, leap) == 0 && MonthStart(13, leap) == (if leap then 366 else 365)
  {
  }

  /** The month (1..12) holding 0-based day d of the year. */
  function MonthOfDay(d: int, leap: bool, m: int): (r: int)
    requires 1 <= m <= 12 && MonthStart(m, leap) <= d < (if leap then 366 else 365)
    ensures m <= r <= 12
    ensures MonthStart(r, leap) <= d < MonthStart(r + 1, leap)
    decreases 12 - m
  {
    if d < MonthStart(m + 1, leap) then m
    else
      assert m < 12;
      MonthOfDay(d, leap, m + 1)
  }

  function Month(t: int): (m: int)
    ensures 1 <= m <= 12
  {
    var (y, d) := YearAndDay(DayNumber(t), 1970);
    MonthOfDay(d, Leap(y), 1)
  }

  function DayOfMonth(t: int): (d: int)
    ensures 1 <= d <= 31
  {
    var (y, doy) := YearAndDay(DayNumber(t), 1970);
    var m := MonthOfDay(doy, Leap(y), 1);
    doy - MonthStart(m, Leap(y)) + 1
  }

  /** Month and day of the month name the day of the year exactly: the day
      of the month never exceeds its month's length, and counting the days
      of the months before it gives back the day of the year. */
  lemma MonthAndDayLocateTheDay(t: int)
    ensures var (y, doy) := YearAndDay(DayNumber(t), 1970);
      && DayOfMonth(t) <= MonthLength(Month(t), Leap(y))
      && MonthStart(Month(t), Leap(y)) + DayOfMonth(t) - 1 == doy
  {
    var (y, doy) := YearAndDay(DayNumber(t), 1970);
    var m := MonthOfDay(doy, Leap(y), 1);
    MonthStartsPartitionYear(m, Leap(y));
  }
}
