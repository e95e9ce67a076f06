/** The date helpers, over a time value in milliseconds and a naive civil
    calendar (no time zone, no daylight saving): a day number counts days from
    1970-01-01, which was a Thursday, and the time of day is what is left. A
    JavaScript `Date` is an object holding one time value, which the period
    helpers copy and then change step by step. */
module DateUtils {

  const MsPerSecond: int := 1000
  const MsPerMinute: int := 60_000
  const MsPerHour: int := 3_600_000
  const MsPerDay: int := 86_400_000

  // ------------------------------------------------------ time value parts

  /** The day number of a time value (division rounds down). */
  function Day(t: int): int { t / MsPerDay }

  function TimeWithinDay(t: int): (r: int)
    ensures 0 <= r < MsPerDay
  {
    t % MsPerDay
  }

  /** `getDay()`: 0 is Sunday; day 0 was a Thursday. */
  function WeekDay(t: int): (r: int)
    ensures 0 <= r < 7
  {
    (Day(t) + 4) % 7
  }

  function Hours(t: int): int { TimeWithinDay(t) / MsPerHour }
  function Minutes(t: int): int { TimeWithinDay(t) / MsPerMinute % 60 }
  function Seconds(t: int): int { TimeWithinDay(t) / MsPerSecond % 60 }
  function Milliseconds(t: int): int { TimeWithinDay(t) % MsPerSecond }

  /** `MakeDate(day, time)`. */
  function MakeDate(day: int, time: int): int { day * MsPerDay + time }

  /** A time value is its day and its time of day put back together, and
      those are recovered from it. */
  lemma MakeDateParts(day: int, time: int)
    requires 0 <= time < MsPerDay
    ensures Day(MakeDate(day, time)) == day && TimeWithinDay(MakeDate(day, time)) == time
  {
  }

  lemma TimeParts(t: int)
    ensures t == MakeDate(Day(t), TimeWithinDay(t))
  {
  }

  // ------------------------------------------------------- civil calendar

  predicate IsLeap(y: int) {
    y % 4 == 0 && (y % 100 != 0 || y % 400 == 0)
  }

  function DaysInYear(y: int): int {
    if IsLeap(y) then 366 else 365
  }

  function DaysInMonth(y: int, m: int): (r: int)
    requires 0 <= m < 12
    ensures 28 <= r <= 31
  {
    if m == 1 then (if IsLeap(y) then 29 else 28)
    else if m == 3 || m == 5 || m == 8 || m == 10 then 30
    else 31
  }

  /** Days of a common year before month `m` (0 is January). */
  function CommonDaysBefore(m: int): (r: int)
    requires 0 <= m <= 12
    ensures 0 <= r <= 365
  {
    if m == 0 then 0 else if m == 1 then 31 else if m == 2 then 59
    else if m == 3 then 90 else if m == 4 then 120 else if m == 5 then 151
    else if m == 6 then 181 else if m == 7 then 212 else if m == 8 then 243
    else if m == 9 then 273 else if m == 10 then 304 else if m == 11 then 334
    else 365
  }

  /** Days of year `y` before month `m`: a leap year's February 29 counts
      from March on. */
  function DaysBeforeMonth(y: int, m: int): (r: int)
    requires 0 <= m <= 12
    ensures r >= 0
  {
    CommonDaysBefore(m) + (if m >= 2 && IsLeap(y) then 1 else 0)
  }

  /** Each month starts where the one before it ends, and the twelve months
      fill the year. */
  lemma MonthDays(y: int, m: int)
    requires 0 <= m < 12
    ensures DaysBeforeMonth(y, m + 1) == DaysBeforeMonth(y, m) + DaysInMonth(y, m)
  {
  }

  lemma MonthsFillYear(y: int)
    ensures DaysBeforeMonth(y, 12) == DaysInYear(y)
  {
  }

  /** Later months start later: at least a month's worth of days later. */
  lemma {:induction false} MonthMonotone(y: int, a: int, b: int)
    requires 0 <= a < b <= 12
    ensures DaysBeforeMonth(y, a) + DaysInMonth(y, a) <= DaysBeforeMonth(y, b)
    decreases b - a
  {
    MonthDays(y, a);
    if a + 1 < b {
      MonthMonotone(y, a + 1, b);
      MonthDays(y, a + 1);
    }
  }

  /** The day number of January 1 of year `y`. */
  function DaysBeforeYear(y: int): int
    decreases if y < 1970 then 1970 - y else y - 1970
  {
    if y == 1970 then 0
    else if y > 1970 then DaysBeforeYear(y - 1) + DaysInYear(y - 1)
    else DaysBeforeYear(y + 1) - DaysInYear(y)
  }

  /** Each year starts where the one before it ends. */
  lemma YearStep(y: int)
    ensures DaysBeforeYear(y + 1) == DaysBeforeYear(y) + DaysInYear(y)
  {
  }

  /** Later years start later: at least a year's worth of days later. */
  lemma {:induction false} YearMonotone(a: int, b: int)
    requires a < b
    ensures DaysBeforeYear(a + 1) <= DaysBeforeYear(b)
    decreases b - a
  {
    if a + 1 < b {
      YearMonotone(a, b - 1);
      YearStep(b - 1);
    }
  }

  /** The day number of date `d` of month `m` of year `y`; a date outside
      the month carries into the day number. */
  function DayOfCivil(y: int, m: int, d: int): int
    requires 0 <= m < 12
  {
    DaysBeforeYear(y) + DaysBeforeMonth(y, m) + d - 1
  }

  /** `MakeDay(year, month, date)`: the month may lie outside 0..11 and
      carries into the year. */
  function MakeDay(year: int, month: int, date: int): int {
    DayOfCivil(year + month / 12, month % 12, date)
  }

  /** The month after month `m` of year `y`. */
  function NextMonth(y: int, m: int): (r: (int, int))
    requires 0 <= m < 12
    ensures 0 <= r.1 < 12
  {
    if m == 11 then (y + 1, 0) else (y, m + 1)
  }

  lemma MakeDayInYear(y: int, m: int, d: int)
    requires 0 <= m < 12
    ensures MakeDay(y, m, d) == DayOfCivil(y, m, d)
  {
  }

  lemma MakeDayNextMonth(y: int, m: int, d: int)
    requires 0 <= m < 12
    ensures MakeDay(y, m + 1, d) == DayOfCivil(NextMonth(y, m).0, NextMonth(y, m).1, d)
  {
  }

  /** A month ends where the next one starts. */
  lemma MonthStep(y: int, m: int)
    requires 0 <= m < 12
    ensures DayOfCivil(y, m, DaysInMonth(y, m) + 1) == DayOfCivil(NextMonth(y, m).0, NextMonth(y, m).1, 1)
  {
    MonthDays(y, m);
    if m == 11 {
      YearStep(y);
      MonthsFillYear(y);
    }
  }

  /** A calendar date: year, month 0..11 and day of the month. */
  datatype Civil = Civil(year: int, month: int, date: int)

  predicate ValidCivil(c: Civil) {
    0 <= c.month < 12 && 1 <= c.date <= DaysInMonth(c.year, c.month)
  }

  /** The first year from `y` on whose end lies after day `dn`. */
  function FindYearUp(dn: int, y: int): int
    requires DaysBeforeYear(y) <= dn
    decreases dn - DaysBeforeYear(y)
  {
    YearStep(y);
    if dn < DaysBeforeYear(y + 1) then y else FindYearUp(dn, y + 1)
  }

  lemma {:induction false} FindYearUpBounds(dn: int, y: int)
    requires DaysBeforeYear(y) <= dn
    ensures var r := FindYearUp(dn, y); DaysBeforeYear(r) <= dn < DaysBeforeYear(r + 1)
    decreases dn - DaysBeforeYear(y)
  {
    YearStep(y);
    if dn >= DaysBeforeYear(y + 1) {
      FindYearUpBounds(dn, y + 1);
    }
  }

  /** The first year from `y` down whose start lies at or before day `dn`. */
  function FindYearDown(dn: int, y: int): int
    requires dn < DaysBeforeYear(y + 1)
    decreases DaysBeforeYear(y + 1) - dn
  {
    YearStep(y);
    if DaysBeforeYear(y) <= dn then y else FindYearDown(dn, y - 1)
  }

  lemma {:induction false} FindYearDownBounds(dn: int, y: int)
    requires dn < DaysBeforeYear(y + 1)
    ensures var r := FindYearDown(dn, y); DaysBeforeYear(r) <= dn < DaysBeforeYear(r + 1)
    decreases DaysBeforeYear(y + 1) - dn
  {
    YearStep(y);
    if DaysBeforeYear(y) > dn {
      FindYearDownBounds(dn, y - 1);
    }
  }

  /** The year holding day number `dn`. */
  function YearOfDay(dn: int): int {
    if dn >= 0 then FindYearUp(dn, 1970) else FindYearDown(dn, 1969)
  }

  lemma YearOfDayBounds(dn: int)
    ensures DaysBeforeYear(YearOfDay(dn)) <= dn < DaysBeforeYear(YearOfDay(dn) + 1)
  {
    if dn >= 0 {
      FindYearUpBounds(dn, 1970);
    } else {
      FindYearDownBounds(dn, 1969);
    }
  }

  /** The first month from `m` on whose end lies after day `doy` of year
      `y`. */
  function FindMonth(y: int, doy: int, m: int): int
    requires 0 <= m < 12
    decreases 12 - m
  {
    if m == 11 || doy < DaysBeforeMonth(y, m + 1) then m else FindMonth(y, doy, m + 1)
  }

  lemma {:induction false} FindMonthBounds(y: int, doy: int, m: int)
    requires 0 <= m < 12 && DaysBeforeMonth(y, m) <= doy < DaysInYear(y)
    ensures var r := FindMonth(y, doy, m);
            0 <= r < 12 && DaysBeforeMonth(y, r) <= doy < DaysBeforeMonth(y, r + 1)
    decreases 12 - m
  {
    MonthsFillYear(y);
    if m < 11 && doy >= DaysBeforeMonth(y, m + 1) {
      FindMonthBounds(y, doy, m + 1);
    }
  }

  /** The calendar date of day number `dn`: `getFullYear`, `getMonth` and
      `getDate`. */
  function CivilOf(dn: int): (c: Civil)
    ensures ValidCivil(c)
    ensures DayOfCivil(c.year, c.month, c.date) == dn
  {
    var y := YearOfDay(dn);
    YearOfDayBounds(dn);
    YearStep(y);
    var doy := dn - DaysBeforeYear(y);
    var m := FindMonth(y, doy, 0);
    FindMonthBounds(y, doy, 0);
    MonthDays(y, m);
    Civil(y, m, doy - DaysBeforeMonth(y, m) + 1)
  }

  /** A valid date lies inside its year and inside its month. */
  lemma CivilBounds(c: Civil)
    requires ValidCivil(c)
    ensures var dn := DayOfCivil(c.year, c.month, c.date);
            && DaysBeforeYear(c.year) <= dn < DaysBeforeYear(c.year + 1)
            && DaysBeforeMonth(c.year, c.month) <= dn - DaysBeforeYear(c.year) < DaysBeforeMonth(c.year, c.month + 1)
  {
    YearStep(c.year);
    MonthsFillYear(c.year);
    MonthDays(c.year, c.month);
    if c.month < 11 {
      MonthMonotone(c.year, c.month + 1, 12);
    }
  }

  lemma YearUnique(a: int, b: int, dn: int)
    requires DaysBeforeYear(a) <= dn < DaysBeforeYear(a + 1)
    requires DaysBeforeYear(b) <= dn < DaysBeforeYear(b + 1)
    ensures a == b
  {
    if a < b {
      YearMonotone(a, b);
    } else if b < a {
      YearMonotone(b, a);
    }
  }

  lemma MonthUnique(y: int, a: int, b: int, doy: int)
    requires 0 <= a < 12 && 0 <= b < 12
    requires DaysBeforeMonth(y, a) <= doy < DaysBeforeMonth(y, a + 1)
    requires DaysBeforeMonth(y, b) <= doy < DaysBeforeMonth(y, b + 1)
    ensures a == b
  {
    if a < b {
      MonthDays(y, a);
      MonthMonotone(y, a, b);
    } else if b < a {
      MonthDays(y, b);
      MonthMonotone(y, b, a);
    }
  }

  /** Every calendar date has exactly one day number: reading back the date
      of a day number gives the date it was made from. */
  lemma {:induction false} CivilOfDay(c: Civil)
    requires ValidCivil(c)
    ensures CivilOf(DayOfCivil(c.year, c.month, c.date)) == c
  {
    var dn := DayOfCivil(c.year, c.month, c.date);
    var r := CivilOf(dn);
    CivilBounds(c);
    CivilBounds(r);
    YearUnique(c.year, r.year, dn);
    MonthUnique(c.year, c.month, r.month, dn - DaysBeforeYear(c.year));
  }

  /** The date of a day number given as a date's day number is that date. */
  lemma CivilOfIs(dn: int, c: Civil)
    requires ValidCivil(c) && dn == DayOfCivil(c.year, c.month, c.date)
    ensures CivilOf(dn) == c
  {
    CivilOfDay(c);
  }

  function Year(t: int): int { CivilOf(Day(t)).year }
  function Month(t: int): int { CivilOf(Day(t)).month }
  function Date(t: int): int { CivilOf(Day(t)).date }

  /** Stepping back by the weekday lands on a Sunday; stepping forward by
      six minus the weekday lands on a Saturday. */
  lemma WeekBounds(t: int, u: int)
    ensures Day(u) == Day(t) - WeekDay(t) ==> WeekDay(u) == 0
    ensures Day(u) == Day(t) + (6 - WeekDay(t)) ==> WeekDay(u) == 6
  {
    var dn := Day(t);
    var q := (dn + 4) / 7;
    assert dn + 4 == 7 * q + WeekDay(t);
    if Day(u) == dn - WeekDay(t) {
      assert Day(u) + 4 == 7 * q;
    }
    if Day(u) == dn + (6 - WeekDay(t)) {
      assert Day(u) + 4 == 7 * q + 6;
    }
  }

  // -------------------------------------------------- the Date object

  /** A JavaScript `Date`: one mutable time value. */
  class JsDate {
    var time: int

    /** `new Date(date)`: a copy. */
    constructor (t: int)
      ensures time == t
    {
      time := t;
    }

    /** `getDay()`: 0 for Sunday to 6 for Saturday, advancing by one each
        day from the Thursday of day 0. */
    function GetDay(): (r: int)
      reads this
      ensures 0 <= r < 7 && (Day(time) + 4 - r) % 7 == 0
    {
      WeekDay(time)
    }

    /** `getDate()`: the day within the month that, with the year and month,
        names this day. */
    function GetDate(): (r: int)
      reads this
      ensures 1 <= r <= DaysInMonth(Year(time), Month(time))
      ensures DayOfCivil(Year(time), Month(time), r) == Day(time)
    {
      Date(time)
    }

    /** `getMonth()`: the month from 0 that, with the year and the day
        within the month, names this day. */
    function GetMonth(): (r: int)
      reads this
      ensures 0 <= r < 12
      ensures DayOfCivil(Year(time), r, Date(time)) == Day(time)
    {
      Month(time)
    }

    /** `setHours(h, m, s, ms)`: same day, new time of day. */
    method SetHours(h: int, mi: int, s: int, ms: int)
      modifies this
      ensures time == MakeDate(Day(old(time)), h * MsPerHour + mi * MsPerMinute + s * MsPerSecond + ms)
    {
      time := MakeDate(Day(time), h * MsPerHour + mi * MsPerMinute + s * MsPerSecond + ms);
    }

    /** `setDate(d)`: same year, month and time of day, day of month `d`. */
    method SetDate(d: int)
      modifies this
      ensures time == MakeDate(MakeDay(Year(old(time)), Month(old(time)), d), TimeWithinDay(old(time)))
    {
      time := MakeDate(MakeDay(Year(time), Month(time), d), TimeWithinDay(time));
    }

    /** `setMonth(m)`: same year, date and time of day, month `m`. */
    method SetMonth(m: int)
      modifies this
      ensures time == MakeDate(MakeDay(Year(old(time)), m, Date(old(time))), TimeWithinDay(old(time)))
    {
      time := MakeDate(MakeDay(Year(time), m, Date(time)), TimeWithinDay(time));
    }
  }

  const LastMsOfDay: int := 86_399_999

  // ---------------------------------------------------- start and end of

  /** `getStartOfDay`: the same calendar day at 00:00:00.000. */
  method StartOfDay(t: int) returns (r: int)
    ensures Day(r) == Day(t) && TimeWithinDay(r) == 0
    ensures r <= t < r + MsPerDay
  {
    var d := new JsDate(t);
    d.SetHours(0, 0, 0, 0);
    r := d.time;
    MakeDateParts(Day(t), 0);
  }

  /** `getEndOfDay`: the same calendar day at 23:59:59.999. */
  method EndOfDay(t: int) returns (r: int)
    ensures Day(r) == Day(t) && TimeWithinDay(r) == MsPerDay - 1
    ensures t <= r < t + MsPerDay
    ensures Hours(r) == 23 && Minutes(r) == 59 && Seconds(r) == 59 && Milliseconds(r) == 999
  {
    var d := new JsDate(t);
    d.SetHours(23, 59, 59, 999);
    r := d.time;
    MakeDateParts(Day(t), LastMsOfDay);
  }

  /** `setDate(getDate() + k)` moves the time value by `k` whole days. */
  lemma SetDateShifts(t: int, k: int)
    ensures var moved := MakeDate(MakeDay(Year(t), Month(t), Date(t) + k), TimeWithinDay(t));
            Day(moved) == Day(t) + k && TimeWithinDay(moved) == TimeWithinDay(t)
  {
    var c := CivilOf(Day(t));
    MakeDayInYear(c.year, c.month, c.date + k);
    MakeDateParts(Day(t) + k, TimeWithinDay(t));
  }

  /** `getStartOfWeek`: the Sunday at most six days earlier, at
      00:00:00.000. */
  method StartOfWeek(t: int) returns (r: int)
    ensures WeekDay(r) == 0
    ensures Day(t) - 6 <= Day(r) <= Day(t) && Day(r) == Day(t) - WeekDay(t)
    ensures TimeWithinDay(r) == 0
  {
    var d := new JsDate(t);
    var day := d.GetDay();
    SetDateShifts(t, -day);
    d.SetDate(d.GetDate() - day);
    var shifted := d.time;
    assert Day(shifted) == Day(t) - day;
    d.SetHours(0, 0, 0, 0);
    r := d.time;
    MakeDateParts(Day(t) - day, 0);
    assert Day(r) == Day(t) - day;
    WeekBounds(t, r);
  }

  /** `getEndOfWeek`: the Saturday at most six days later, at 23:59:59.999. */
  method EndOfWeek(t: int) returns (r: int)
    ensures WeekDay(r) == 6
    ensures Day(t) <= Day(r) <= Day(t) + 6 && Day(r) == Day(t) + (6 - WeekDay(t))
    ensures TimeWithinDay(r) == LastMsOfDay
  {
    var d := new JsDate(t);
    var day := d.GetDay();
    SetDateShifts(t, 6 - day);
    d.SetDate(d.GetDate() + (6 - day));
    var shifted := d.time;
    assert Day(shifted) == Day(t) + (6 - day);
    d.SetHours(23, 59, 59, 999);
    r := d.time;
    MakeDateParts(Day(t) + (6 - day), LastMsOfDay);
    assert Day(r) == Day(t) + (6 - day);
    WeekBounds(t, r);
  }

  /** `getStartOfMonth`: day 1 of the same month, at 00:00:00.000. */
  method StartOfMonth(t: int) returns (r: int)
    ensures CivilOf(Day(r)) == CivilOf(Day(t)).(date := 1)
    ensures TimeWithinDay(r) == 0
  {
    var c := CivilOf(Day(t));
    var first := DayOfCivil(c.year, c.month, 1);
    var d := new JsDate(t);
    MakeDayInYear(c.year, c.month, 1);
    d.SetDate(1);
    MakeDateParts(first, TimeWithinDay(t));
    d.SetHours(0, 0, 0, 0);
    r := d.time;
    MakeDateParts(first, 0);
    CivilOfDay(c.(date := 1));
  }

  /** Day 0 of a month is the last day of the month before it. */
  lemma DayZero(y: int, m: int)
    requires 0 <= m < 12
    ensures DayOfCivil(NextMonth(y, m).0, NextMonth(y, m).1, 0) == DayOfCivil(y, m, DaysInMonth(y, m))
  {
    MonthStep(y, m);
  }

  /** A day the next month does not have rolls over into the month after it. */
  lemma Overflow(y: int, m: int, date: int)
    requires 0 <= m < 12 && DaysInMonth(y, m) < date <= DaysInMonth(y, m) + 3
    ensures var (ny, nm) := NextMonth(y, m);
            DayOfCivil(y, m, date) == DayOfCivil(ny, nm, date - DaysInMonth(y, m))
  {
    MonthStep(y, m);
  }

  /** `getEndOfMonth` first moves to the same day of the next month
      (`setMonth(getMonth() + 1)`), then to day 0 of the month reached
      (`setDate(0)`). A day the next month also has gives the last day of
      the date's own month. */
  lemma EndOfMonthKeepsMonth(c: Civil)
    requires ValidCivil(c)
    requires c.date <= DaysInMonth(NextMonth(c.year, c.month).0, NextMonth(c.year, c.month).1)
    ensures var m := CivilOf(MakeDay(c.year, c.month + 1, c.date));
            CivilOf(MakeDay(m.year, m.month, 0)) == Civil(c.year, c.month, DaysInMonth(c.year, c.month))
  {
    var next := NextMonth(c.year, c.month);
    var moved := MakeDay(c.year, c.month + 1, c.date);
    MakeDayNextMonth(c.year, c.month, c.date);
    CivilOfIs(moved, Civil(next.0, next.1, c.date));
    var back := MakeDay(next.0, next.1, 0);
    MakeDayInYear(next.0, next.1, 0);
    DayZero(c.year, c.month);
    CivilOfIs(back, Civil(c.year, c.month, DaysInMonth(c.year, c.month)));
  }

  /** A day the next month does not have rolls over into the month after
      it, so the same two steps give the last day of the NEXT month. */
  lemma EndOfMonthSkipsMonth(c: Civil)
    requires ValidCivil(c)
    requires c.date > DaysInMonth(NextMonth(c.year, c.month).0, NextMonth(c.year, c.month).1)
    ensures var m := CivilOf(MakeDay(c.year, c.month + 1, c.date));
            var next := NextMonth(c.year, c.month);
            CivilOf(MakeDay(m.year, m.month, 0)) == Civil(next.0, next.1, DaysInMonth(next.0, next.1))
  {
    var next := NextMonth(c.year, c.month);
    var after := NextMonth(next.0, next.1);
    var over := c.date - DaysInMonth(next.0, next.1);
    var moved := MakeDay(c.year, c.month + 1, c.date);
    MakeDayNextMonth(c.year, c.month, c.date);
    Overflow(next.0, next.1, c.date);
    CivilOfIs(moved, Civil(after.0, after.1, over));
    var back := MakeDay(after.0, after.1, 0);
    MakeDayInYear(after.0, after.1, 0);
    DayZero(next.0, next.1);
    CivilOfIs(back, Civil(next.0, next.1, DaysInMonth(next.0, next.1)));
  }

  /** January 31 has no February counterpart in a common year: the two steps
      of `getEndOfMonth` land on February 28, the end of the wrong month. */
  lemma EndOfMonthOverflows(y: int)
    requires !IsLeap(y)
    ensures var m := CivilOf(MakeDay(y, 1, 31));
            CivilOf(MakeDay(m.year, m.month, 0)) == Civil(y, 1, 28)
  {
    EndOfMonthSkipsMonth(Civil(y, 0, 31));
  }

  /** Where the two steps of `getEndOfMonth` land, by the date's case. */
  lemma EndOfMonthLands(t: int, r: int)
    requires var moved := MakeDay(Year(t), Month(t) + 1, Date(t));
             Day(r) == MakeDay(CivilOf(moved).year, CivilOf(moved).month, 0)
    ensures var c := CivilOf(Day(t));
            var next := NextMonth(c.year, c.month);
            c.date <= DaysInMonth(next.0, next.1) ==>
              CivilOf(Day(r)) == Civil(c.year, c.month, DaysInMonth(c.year, c.month))
    ensures var c := CivilOf(Day(t));
            var next := NextMonth(c.year, c.month);
            c.date > DaysInMonth(next.0, next.1) ==>
              CivilOf(Day(r)) == Civil(next.0, next.1, DaysInMonth(next.0, next.1))
  {
    var c := CivilOf(Day(t));
    assert Year(t) == c.year && Month(t) == c.month && Date(t) == c.date;
    var m := CivilOf(MakeDay(c.year, c.month + 1, c.date));
    assert Day(r) == MakeDay(m.year, m.month, 0);
    var next := NextMonth(c.year, c.month);
    if c.date <= DaysInMonth(next.0, next.1) {
      EndOfMonthKeepsMonth(c);
    } else {
      EndOfMonthSkipsMonth(c);
    }
  }

  /** `getEndOfMonth`, step by step as written: the last day of the date's
      own month when the next month has the date's day, and otherwise the
      last day of the next month. */
  method EndOfMonth(t: int) returns (r: int)
    ensures var c := CivilOf(Day(t));
            var next := NextMonth(c.year, c.month);
            c.date <= DaysInMonth(next.0, next.1) ==>
              CivilOf(Day(r)) == Civil(c.year, c.month, DaysInMonth(c.year, c.month))
    ensures var c := CivilOf(Day(t));
            var next := NextMonth(c.year, c.month);
            c.date > DaysInMonth(next.0, next.1) ==>
              CivilOf(Day(r)) == Civil(next.0, next.1, DaysInMonth(next.0, next.1))
    ensures TimeWithinDay(r) == LastMsOfDay
  {
    var d := new JsDate(t);
    d.SetMonth(d.GetMonth() + 1);
    var moved := MakeDay(Year(t), Month(t) + 1, Date(t));
    MakeDateParts(moved, TimeWithinDay(t));
    d.SetDate(0);
    var back := MakeDay(CivilOf(moved).year, CivilOf(moved).month, 0);
    MakeDateParts(back, TimeWithinDay(t));
    d.SetHours(23, 59, 59, 999);
    r := d.time;
    MakeDateParts(back, LastMsOfDay);
    EndOfMonthLands(t, r);
  }

  /** The end of the month as intended: moving to day 1 first keeps
      `setMonth(+1)` inside the next month, so the steps of `getEndOfMonth`
      then always land on the last day of the date's own month. */
  method EndOfMonthCorrected(t: int) returns (r: int)
    ensures var c := CivilOf(Day(t));
            CivilOf(Day(r)) == Civil(c.year, c.month, DaysInMonth(c.year, c.month))
    ensures TimeWithinDay(r) == LastMsOfDay
  {
    var c := CivilOf(Day(t));
    var d := new JsDate(t);
    d.SetDate(1);
    MakeDayInYear(c.year, c.month, 1);
    var start := DayOfCivil(c.year, c.month, 1);
    MakeDateParts(start, TimeWithinDay(t));
    CivilOfIs(start, c.(date := 1));
    r := EndOfMonth(d.time);
  }

  // --------------------------------------------------- differences, overlap

  /** `getDifferenceInMinutes`: whole minutes between the two instants, in
      either order. */
  function DifferenceInMinutes(startDate: int, endDate: int): (r: nat)
    ensures var gap := if endDate >= startDate then endDate - startDate else startDate - endDate;
            r * MsPerMinute <= gap < (r + 1) * MsPerMinute
  {
    var gap := if endDate >= startDate then endDate - startDate else startDate - endDate;
    gap / MsPerMinute
  }

  lemma DifferenceSymmetric(a: int, b: int)
    ensures DifferenceInMinutes(a, b) == DifferenceInMinutes(b, a)
  {
  }

  predicate Within(x: int, start: int, end: int) {
    start <= x < end
  }

  /** `doTimeRangesOverlap`: for ranges that are not empty, the ranges
      `[startA, endA)` and `[startB, endB)` share an instant. */
  function RangesOverlap(startA: int, endA: int, startB: int, endB: int): (r: bool)
    ensures startA < endA && startB < endB ==>
              (r <==> exists x :: Within(x, startA, endA) && Within(x, startB, endB))
  {
    var later := if startA < startB then startB else startA;
    assert startA < endA && startB < endB && startA < endB && startB < endA
           ==> Within(later, startA, endA) && Within(later, startB, endB);
    startA < endB && startB < endA
  }

  lemma OverlapSymmetric(startA: int, endA: int, startB: int, endB: int)
    ensures RangesOverlap(startA, endA, startB, endB) == RangesOverlap(startB, endB, startA, endA)
  {
  }

  /** Ranges that only touch (one ends where the other starts) do not
      overlap. */
  lemma TouchingRangesDoNotOverlap(startA: int, endA: int, endB: int)
    ensures !RangesOverlap(startA, endA, endA, endB)
    ensures !RangesOverlap(endA, endB, startA, endA)
  {
  }
}
