/** The publication-date check: a Date object that normalises what it is set to, against the
    proleptic Gregorian calendar (sections 5.6 and 5.7 of RFC 3339; sections 21.4.1.3 to
    21.4.1.13 of ECMA-262). */
module Calendar {
  // ---- The calendar, by succession ----

  /** month is 1 to 12. */
  datatype Date = Date(year: int, month: int, day: int)

  predicate Leap(y: int) {
    y % 4 == 0 && (y % 100 != 0 || y % 400 == 0)
  }

  function DaysInMonth(y: int, m: int): (d: int)
    ensures 28 <= d <= 31
  {
    if m == 2 then (if Leap(y) then 29 else 28) else if m == 4 || m == 6 || m == 9 || m == 11 then 30 else 31
  }

  predicate Valid(d: Date) {
    1 <= d.month <= 12 && 1 <= d.day <= DaysInMonth(d.year, d.month)
  }

  function Next(d: Date): (n: Date)
    requires Valid(d)
    ensures Valid(n)
  {
    if d.day < DaysInMonth(d.year, d.month) then Date(d.year, d.month, d.day + 1)
    else if d.month < 12 then Date(d.year, d.month + 1, 1)
    else Date(d.year + 1, 1, 1)
  }

  function Previous(d: Date): (p: Date)
    requires Valid(d)
    ensures Valid(p) && Next(p) == d
  {
    if d.day > 1 then Date(d.year, d.month, d.day - 1)
    else if d.month > 1 then Date(d.year, d.month - 1, DaysInMonth(d.year, d.month - 1))
    else Date(d.year - 1, 12, 31)
  }

  // ---- ECMA-262 day arithmetic; months count from 0 ----

  function DayFromYear(y: int): int {
    365 * (y - 1970) + (y - 1969) / 4 - (y - 1901) / 100 + (y - 1601) / 400
  }

  /** Days before month m of year y, as in the table of MonthFromTime. */
  function BeforeMonth(y: int, m: int): int
    requires 0 <= m <= 12
  {
    (if m <= 6 then (if m <= 3 then (if m == 0 then 0 else if m == 1 then 31 else if m == 2 then 59 else 90)
                     else if m == 4 then 120 else if m == 5 then 151 else 181)
     else if m <= 9 then (if m == 7 then 212 else if m == 8 then 243 else 273)
     else if m == 10 then 304 else if m == 11 then 334 else 365)
    + (if m >= 2 && Leap(y) then 1 else 0)
  }

  /** MakeDay: months beyond the year and days beyond the month carry over. */
  function MakeDay(year: int, month: int, date: int): int {
    var y, m := year + month / 12, month % 12;
    DayFromYear(y) + BeforeMonth(y, m) + date - 1
  }

  /** YearFromTime, looked for upwards. */
  function YearFrom(day: int, y: int): (r: int)
    requires DayFromYear(y) <= day
    ensures DayFromYear(r) <= day < DayFromYear(r + 1)
    decreases day - DayFromYear(y)
  {
    YearLength(y);
    if DayFromYear(y + 1) <= day then YearFrom(day, y + 1) else y
  }

  function YearOf(day: int): (y: int)
    ensures DayFromYear(y) <= day < DayFromYear(y + 1)
  {
    YearFrom(day, if day >= 0 then 1970 else 1970 + day)
  }

  function MonthFrom(y: int, within: int, m: int): (r: int)
    requires 0 <= m < 12 && BeforeMonth(y, m) <= within < BeforeMonth(y, 12)
    ensures 0 <= r < 12 && BeforeMonth(y, r) <= within < BeforeMonth(y, r + 1)
    decreases 12 - m
  {
    if m + 1 < 12 && BeforeMonth(y, m + 1) <= within then MonthFrom(y, within, m + 1) else m
  }

  /** The year, month and date of a day, month counted from 1. */
  function DateOf(day: int): Date {
    var y := YearOf(day);
    DayInYear(y, day);
    var within := day - DayFromYear(y);
    var m := MonthFrom(y, within, 0);
    Date(y, m + 1, within - BeforeMonth(y, m) + 1)
  }

  lemma DayInYear(y: int, day: int)
    requires DayFromYear(y) <= day < DayFromYear(y + 1)
    ensures BeforeMonth(y, 0) <= day - DayFromYear(y) < BeforeMonth(y, 12)
  {
    YearLength(y);
    MonthZero(y);
    hide DayFromYear, BeforeMonth;
  }

  function DayOf(d: Date): int {
    MakeDay(d.year, d.month - 1, d.day)
  }

  lemma Fours(y: int)
    ensures (y + 1 - 1969) / 4 == (y - 1969) / 4 + if y % 4 == 0 then 1 else 0
  {}

  lemma Hundreds(y: int)
    ensures (y + 1 - 1901) / 100 == (y - 1901) / 100 + if y % 100 == 0 then 1 else 0
  {}

  lemma FourHundreds(y: int)
    ensures (y + 1 - 1601) / 400 == (y - 1601) / 400 + if y % 400 == 0 then 1 else 0
  {}

  lemma MultiplesNest(y: int)
    ensures (y % 400 == 0 ==> y % 100 == 0) && (y % 100 == 0 ==> y % 4 == 0)
  {}

  lemma YearLength(y: int)
    ensures DayFromYear(y + 1) == DayFromYear(y) + BeforeMonth(y, 12)
  {
    Fours(y);
    Hundreds(y);
    FourHundreds(y);
    MultiplesNest(y);
  }

  /** No carry for months of the year. */
  lemma DayOfMonth(d: Date)
    requires 1 <= d.month <= 12
    ensures DayOf(d) == DayFromYear(d.year) + BeforeMonth(d.year, d.month - 1) + d.day - 1
  {}

  lemma MonthLength(y: int, m: int)
    requires 0 <= m < 12
    ensures BeforeMonth(y, m + 1) == BeforeMonth(y, m) + DaysInMonth(y, m + 1)
  {}

  lemma {:induction false} YearsAscend(a: int, b: int)
    requires a <= b
    ensures DayFromYear(a) <= DayFromYear(b)
    decreases b - a
  {
    if a < b {
      YearsAscend(a, b - 1);
      YearLength(b - 1);
    }
  }

  lemma {:induction false} MonthsAscend(y: int, a: int, b: int)
    requires 0 <= a <= b <= 12
    ensures BeforeMonth(y, a) <= BeforeMonth(y, b)
    decreases b - a
  {
    if a < b {
      MonthsAscend(y, a, b - 1);
      MonthLength(y, b - 1);
    }
  }

  /** Every day has a valid date, and the date leads back to the day. */
  lemma DateOfIsValid(day: int)
    ensures Valid(DateOf(day)) && DayOf(DateOf(day)) == day
  {
    hide DayFromYear, BeforeMonth, DaysInMonth, DayOf;
    var d := DateOf(day);
    MonthLength(d.year, d.month - 1);
    DayOfMonth(d);
  }

  /** A day lies in month m of year y. */
  predicate InMonth(y: int, m: int, day: int) {
    && 1 <= m <= 12
    && DayFromYear(y) <= day < DayFromYear(y + 1)
    && BeforeMonth(y, m - 1) <= day - DayFromYear(y) < BeforeMonth(y, m)
  }

  lemma WithinMonth(y: int, m: int, within: int)
    requires 1 <= m <= 12 && BeforeMonth(y, m - 1) <= within < BeforeMonth(y, m - 1) + DaysInMonth(y, m)
    ensures 0 <= BeforeMonth(y, m - 1) <= within < BeforeMonth(y, m) <= BeforeMonth(y, 12)
  {
    hide BeforeMonth, DaysInMonth;
    MonthLength(y, m - 1);
    MonthsAscend(y, m, 12);
    MonthsAscend(y, 0, m - 1);
    MonthZero(y);
  }

  lemma ValidInMonth(d: Date)
    requires Valid(d)
    ensures InMonth(d.year, d.month, DayOf(d))
  {
    hide DayFromYear, BeforeMonth, DaysInMonth, DayOf;
    DayOfMonth(d);
    WithinMonth(d.year, d.month, DayOf(d) - DayFromYear(d.year));
    YearLength(d.year);
  }

  lemma MonthZero(y: int)
    ensures BeforeMonth(y, 0) == 0
  {}

  lemma SameYear(a: int, b: int, day: int)
    requires DayFromYear(a) <= day < DayFromYear(a + 1) && DayFromYear(b) <= day < DayFromYear(b + 1)
    ensures a == b
  {}

  lemma SameMonth(y: int, a: int, b: int, within: int)
    requires 1 <= a <= 12 && 1 <= b <= 12
    requires BeforeMonth(y, a - 1) <= within < BeforeMonth(y, a) && BeforeMonth(y, b - 1) <= within < BeforeMonth(y, b)
    ensures a == b
  {}

  lemma OneMonth(y: int, m: int, y': int, m': int, day: int)
    requires InMonth(y, m, day) && InMonth(y', m', day)
    ensures y == y' && m == m'
  {
    hide DayFromYear, BeforeMonth;
    SameYear(y, y', day);
    SameMonth(y, m, m', day - DayFromYear(y));
  }

  /** Two valid dates of one day are the same date. */
  lemma SameDay(d: Date, e: Date)
    requires Valid(d) && Valid(e) && DayOf(d) == DayOf(e)
    ensures d == e
  {
    ValidInMonth(d);
    ValidInMonth(e);
    hide DayOf, InMonth, DaysInMonth;
    OneMonth(d.year, d.month, e.year, e.month, DayOf(d));
    SameDayOfMonth(d, e);
  }

  lemma SameDayOfMonth(d: Date, e: Date)
    requires 1 <= d.month <= 12 && d.year == e.year && d.month == e.month && DayOf(d) == DayOf(e)
    ensures d == e
  {}

  /** A valid date is the date of its day. */
  lemma DateRoundTrip(d: Date)
    requires Valid(d)
    ensures DateOf(DayOf(d)) == d
  {
    DateOfIsValid(DayOf(d));
    SameDay(d, DateOf(DayOf(d)));
  }

  /** The day count is the calendar's succession of days, from 1 January 1970 on. */
  lemma DaysSucceed(d: Date)
    requires Valid(d)
    ensures DayOf(Next(d)) == DayOf(d) + 1 && DayOf(Date(1970, 1, 1)) == 0
  {
    hide DayFromYear, BeforeMonth, DaysInMonth, DayOf, Next;
    Epoch();
    NextIs(d);
    MonthLength(d.year, d.month - 1);
    YearLength(d.year);
    MonthZero(d.year + 1);
    DayOfMonth(d);
    DayOfMonth(Next(d));
  }

  lemma NextIs(d: Date)
    requires Valid(d)
    ensures 1 <= d.month <= 12 && 1 <= Next(d).month <= 12
    ensures var last := DaysInMonth(d.year, d.month);
            Next(d) == if d.day < last then Date(d.year, d.month, d.day + 1)
                       else if d.month < 12 then Date(d.year, d.month + 1, 1) else Date(d.year + 1, 1, 1)
    ensures d.day <= DaysInMonth(d.year, d.month)
  {}

  lemma Epoch()
    ensures DayOf(Date(1970, 1, 1)) == 0
  {}

  /** Months beyond the year carry over. */
  lemma YearCarries(year: int, month: int, date: int)
    ensures MakeDay(year, month + 12, date) == MakeDay(year + 1, month, date)
  {
    assert (month + 12) / 12 == month / 12 + 1 && (month + 12) % 12 == month % 12;
    hide DayFromYear, BeforeMonth;
  }

  /** Days count on, and a month is followed by the next. */
  lemma DayCarries(year: int, month: int, date: int)
    requires 0 <= month < 12
    ensures MakeDay(year, month, date + 1) == MakeDay(year, month, date) + 1
    ensures MakeDay(year, month + 1, 1) == MakeDay(year, month, DaysInMonth(year, month + 1)) + 1
  {
    hide DayFromYear, BeforeMonth, DaysInMonth;
    assert month / 12 == 0 && month % 12 == month;
    assert (month + 1) / 12 == (if month == 11 then 1 else 0) && (month + 1) % 12 == (if month == 11 then 0 else month + 1);
    MonthLength(year, month);
    YearLength(year);
    MonthZero(year + 1);
  }

  /** Setting a date and reading it back gives the same fields exactly for the dates of the
      calendar; everything else is carried over into another date. */
  lemma NormalisesExactly(year: int, month: int, day: int)
    ensures DateOf(MakeDay(year, month - 1, day)) == Date(year, month, day) <==> Valid(Date(year, month, day))
  {
    hide MakeDay, DateOf;
    if Valid(Date(year, month, day)) {
      DateRoundTrip(Date(year, month, day));
    }
    DateOfIsValid(MakeDay(year, month - 1, day));
  }

  // ---- The Date object ----

  const DAY: int := 86400000
  const HOUR: int := 3600000
  const MINUTE: int := 60000

  /** A UTC time value in milliseconds. */
  class JsDate {
    var time: int

    constructor (time: int)
      ensures this.time == time
    {
      this.time := time;
    }

    method SetUTCHours(hour: int, minute: int, second: int, ms: int)
      modifies this
      ensures time == old(time) / DAY * DAY + hour * HOUR + minute * MINUTE + second * 1000 + ms
    {
      time := time / DAY * DAY + hour * HOUR + minute * MINUTE + second * 1000 + ms;
    }

    method SetUTCFullYear(year: int, month: int, date: int)
      modifies this
      ensures time == MakeDay(year, month, date) * DAY + old(time) % DAY
    {
      time := MakeDay(year, month, date) * DAY + time % DAY;
    }

    function GetUTCDate(): Date
      reads this
    {
      DateOf(time / DAY)
    }

    function GetUTCHours(): int
      reads this
    {
      time % DAY / HOUR
    }

    function GetUTCMinutes(): int
      reads this
    {
      time % HOUR / MINUTE
    }

    function GetUTCSeconds(): int
      reads this
    {
      time % MINUTE / 1000
    }
  }

  // ---- validateRfc3339Date ----

  type TwoDigits = n: int | 0 <= n < 100
  type FourDigits = n: int | 0 <= n < 10000

  datatype Zone = Zulu | East(hours: TwoDigits, minutes: TwoDigits) | West(hours: TwoDigits, minutes: TwoDigits)

  /** The fields of a text of the RFC 3339 shape. */
  datatype Stamp = Stamp(year: FourDigits, month: TwoDigits, day: TwoDigits,
                         hour: TwoDigits, minute: TwoDigits, second: TwoDigits, zone: Zone)

  /** The offset from UTC in minutes. */
  function Offset(z: Zone): int {
    match z
    case Zulu => 0
    case East(h, m) => h * 60 + m
    case West(h, m) => -(h * 60 + m)
  }

  predicate ValidTime(s: Stamp) {
    && s.hour <= 23 && s.minute <= 59 && s.second <= 60
    && (s.zone.Zulu? || (s.zone.hours <= 23 && s.zone.minutes <= 59))
  }

  function LocalDate(s: Stamp): Date {
    Date(s.year, s.month, s.day)
  }

  /** The UTC date of a local time of day: its own, the day before or the day after. */
  function UtcDate(s: Stamp): Date
    requires Valid(LocalDate(s))
  {
    var minutes := s.hour * 60 + s.minute - Offset(s.zone);
    if minutes < 0 then Previous(LocalDate(s)) else if minutes < 1440 then LocalDate(s) else Next(LocalDate(s))
  }

  predicate LastMinute(s: Stamp) {
    (s.hour * 60 + s.minute - Offset(s.zone)) % 1440 == 23 * 60 + 59
  }

  predicate LeapDay(d: Date) {
    (d.month == 6 && d.day == 30) || (d.month == 12 && d.day == 31)
  }

  /** Which stamps RFC 3339 allows: dates of the calendar, times of the day, and second 60 only
      in the last UTC minute of 30 June or 31 December. */
  predicate Allowed(s: Stamp) {
    && Valid(LocalDate(s)) && ValidTime(s)
    && (s.second == 60 ==> LastMinute(s) && LeapDay(UtcDate(s)))
  }

  lemma OffsetIs(z: Zone)
    ensures Offset(z) == if z.Zulu? then 0 else (if z.West? then -1 else 1) * (z.hours * 60 + z.minutes)
  {}

  lemma WholeDay(day: int)
    ensures day * DAY / DAY == day && day * DAY % DAY == 0
  {}

  method ValidateRfc3339Date(s: Stamp) returns (ok: bool)
    ensures ok <==> Allowed(s)
  {
    hide MakeDay, DateOf, Valid, UtcDate, Offset;
    var date := new JsDate(0);
    date.SetUTCHours(0, 0, 0, 0);
    date.SetUTCFullYear(s.year, s.month - 1, s.day);
    WholeDay(DayOf(LocalDate(s)));
    NormalisesExactly(s.year, s.month, s.day);
    var read := date.GetUTCDate();
    var validDate := read.year == s.year && read.month == s.month && read.day == s.day;
    var validTime := s.hour <= 23 && s.minute <= 59 && s.second <= 60 &&
                     (s.zone.Zulu? || (s.zone.hours <= 23 && s.zone.minutes <= 59));
    var validLeapSecond := true;
    if s.second == 60 && validDate && validTime {
      date.SetUTCHours(s.hour, s.minute, 59, 0);
      var sign := if s.zone.West? then -1 else 1;
      var shift := if s.zone.Zulu? then 0 else s.zone.hours * 60 + s.zone.minutes;
      var utc := new JsDate(date.time - sign * shift * MINUTE);
      OffsetIs(s.zone);
      LeapMinute(s, utc.time);
      validLeapSecond := IsLeapSecond(utc);
    }
    ok := validDate && validTime && validLeapSecond;
  }

  method IsLeapSecond(utc: JsDate) returns (leap: bool)
    ensures leap <==> && utc.time % DAY / HOUR == 23 && utc.time % HOUR / MINUTE == 59 && utc.time % MINUTE / 1000 == 59
                      && LeapDay(DateOf(utc.time / DAY))
  {
    hide DateOf;
    var month, last := utc.GetUTCDate().month, utc.GetUTCDate().day;
    leap := utc.GetUTCHours() == 23 && utc.GetUTCMinutes() == 59 && utc.GetUTCSeconds() == 59 &&
            ((month == 6 && last == 30) || (month == 12 && last == 31));
  }

  /** The day of the UTC date, and the minute within it. */
  lemma UtcDay(s: Stamp)
    requires Valid(LocalDate(s)) && ValidTime(s)
    ensures var minutes := s.hour * 60 + s.minute - Offset(s.zone);
            DayOf(UtcDate(s)) == DayOf(LocalDate(s)) + minutes / 1440 && Valid(UtcDate(s))
  {
    var minutes := s.hour * 60 + s.minute - Offset(s.zone);
    assert -1440 < minutes < 2880;
    DaysSucceed(LocalDate(s));
    DaysSucceed(Previous(LocalDate(s)));
  }

  /** The minutes of the calendar and clock of a stamp, as written. */
  function LocalMinutes(s: Stamp): int {
    DayOf(LocalDate(s)) * 1440 + s.hour * 60 + s.minute
  }

  /** A local time, and the UTC minute that lies `offset` before it. */
  lemma UtcOf(s: Stamp, day: int, minute: int)
    requires Valid(LocalDate(s)) && ValidTime(s) && 0 <= minute < 1440
    requires LocalMinutes(s) == day * 1440 + minute + Offset(s.zone)
    ensures DayOf(UtcDate(s)) == day && (LastMinute(s) <==> minute == 23 * 60 + 59)
  {
    UtcDay(s);
    hide DayOf, UtcDate, Offset, Valid, ValidTime;
    var minutes := s.hour * 60 + s.minute - Offset(s.zone);
    assert minutes == (day - DayOf(LocalDate(s))) * 1440 + minute;
    Quotient(minutes, day - DayOf(LocalDate(s)), 1440, minute);
  }

  /** A stamp with an offset and the stamp of the same instant in UTC are both allowed or both
      refused: a time east of Greenwich is ahead of UTC, one west of it behind. */
  lemma SameInstant(s: Stamp, utc: Stamp)
    requires Valid(LocalDate(s)) && ValidTime(s) && Valid(LocalDate(utc)) && ValidTime(utc)
    requires utc.zone.Zulu? && s.second == utc.second
    requires match s.zone
             case Zulu => LocalMinutes(s) == LocalMinutes(utc)
             case East(h, m) => LocalMinutes(s) == LocalMinutes(utc) + (h * 60 + m)
             case West(h, m) => LocalMinutes(s) == LocalMinutes(utc) - (h * 60 + m)
    ensures Allowed(s) <==> Allowed(utc)
  {
    var day, minute := DayOf(LocalDate(utc)), utc.hour * 60 + utc.minute;
    UtcOf(s, day, minute);
    UtcOf(utc, day, minute);
    UtcDay(s);
    UtcDay(utc);
    hide DayOf, UtcDate, Valid, ValidTime, LastMinute;
    SameDay(UtcDate(s), UtcDate(utc));
  }

  /** The examples of section 5.8 of RFC 3339: the leap second of 1990 in Greenwich and in
      Pacific Standard Time, and the times beside them; not 16 hours earlier. */
  lemma Examples()
    ensures Allowed(Stamp(1990, 12, 31, 23, 59, 60, Zulu)) && Allowed(Stamp(1990, 12, 31, 15, 59, 60, West(8, 0)))
    ensures Allowed(Stamp(1985, 4, 12, 23, 20, 50, Zulu)) && Allowed(Stamp(1996, 12, 19, 16, 39, 57, West(8, 0)))
    ensures Allowed(Stamp(1937, 1, 1, 12, 0, 27, East(0, 20))) && Allowed(Stamp(1991, 1, 1, 7, 59, 60, East(8, 0)))
    ensures !Allowed(Stamp(1990, 12, 31, 15, 59, 60, East(8, 0))) && !Allowed(Stamp(1990, 12, 30, 23, 59, 60, Zulu))
  {}

  /** The ends of the ranges, and what lies just beyond them. */
  lemma Bounds()
    ensures Allowed(Stamp(0, 1, 1, 0, 0, 0, Zulu)) && Allowed(Stamp(9999, 12, 31, 23, 59, 59, East(23, 59)))
    ensures Allowed(Stamp(2000, 2, 29, 0, 0, 0, West(23, 59))) && Allowed(Stamp(2024, 2, 29, 0, 0, 0, Zulu))
    ensures !Allowed(Stamp(1900, 2, 29, 0, 0, 0, Zulu)) && !Allowed(Stamp(2023, 2, 29, 0, 0, 0, Zulu))
    ensures !Allowed(Stamp(2024, 0, 1, 0, 0, 0, Zulu)) && !Allowed(Stamp(2024, 13, 1, 0, 0, 0, Zulu))
    ensures !Allowed(Stamp(2024, 1, 0, 0, 0, 0, Zulu)) && !Allowed(Stamp(2024, 4, 31, 0, 0, 0, Zulu))
    ensures !Allowed(Stamp(2024, 1, 1, 24, 0, 0, Zulu)) && !Allowed(Stamp(2024, 1, 1, 0, 60, 0, Zulu))
    ensures !Allowed(Stamp(2024, 1, 1, 0, 0, 60, Zulu)) && !Allowed(Stamp(2024, 12, 31, 23, 59, 61, Zulu))
    ensures !Allowed(Stamp(2024, 1, 1, 0, 0, 0, East(24, 0))) && !Allowed(Stamp(2024, 1, 1, 0, 0, 0, West(0, 60)))
    ensures Allowed(Stamp(2015, 6, 30, 23, 59, 60, Zulu)) && !Allowed(Stamp(2015, 3, 31, 23, 59, 60, Zulu))
  {}

  /** The shifted time value falls on the shifted date, in the shifted minute. */
  lemma LeapMinute(s: Stamp, time: int)
    requires Valid(LocalDate(s)) && ValidTime(s)
    requires time == DayOf(LocalDate(s)) * DAY + s.hour * HOUR + s.minute * MINUTE + 59 * 1000 - Offset(s.zone) * MINUTE
    ensures DateOf(time / DAY) == UtcDate(s)
    ensures time % DAY / HOUR == 23 && time % HOUR / MINUTE == 59 && time % MINUTE / 1000 == 59 <==> LastMinute(s)
  {
    hide DayOf, DateOf, UtcDate, Valid, ValidTime, Offset;
    UtcDay(s);
    DateRoundTrip(UtcDate(s));
    Shift(time, DayOf(LocalDate(s)), s.hour, s.minute, Offset(s.zone));
  }

  lemma Shift(time: int, day: int, hour: int, minute: int, offset: int)
    requires time == day * DAY + hour * HOUR + minute * MINUTE + 59 * 1000 - offset * MINUTE
    ensures var minutes := hour * 60 + minute - offset;
            && time / DAY == day + minutes / 1440
            && (time % DAY / HOUR == 23 && time % HOUR / MINUTE == 59 && time % MINUTE / 1000 == 59 <==> minutes % 1440 == 23 * 60 + 59)
  {
    var minutes := hour * 60 + minute - offset;
    var total := day * 1440 + minutes;
    assert time == total * MINUTE + 59000;
    InMinute(time, total);
    assert total / 1440 == day + minutes / 1440 && total % 1440 == minutes % 1440;
  }

  lemma InMinute(time: int, total: int)
    requires time == total * MINUTE + 59000
    ensures time % MINUTE / 1000 == 59
    ensures time % HOUR / MINUTE == total % 60
    ensures time / DAY == total / 1440 && time % DAY / HOUR == total % 1440 / 60
  {
    var ofDay, ofHour := total % 1440, total % 60;
    Quotient(time, total, MINUTE, 59000);
    Quotient(time, total / 60, HOUR, ofHour * MINUTE + 59000);
    Quotient(ofHour * MINUTE + 59000, ofHour, MINUTE, 59000);
    Quotient(time, total / 1440, DAY, ofDay * MINUTE + 59000);
    Quotient(ofDay * MINUTE + 59000, ofDay / 60, HOUR, ofDay % 60 * MINUTE + 59000);
  }

  lemma Multiple(d: int, n: int)
    requires n > 0
    ensures (d >= 1 ==> d * n >= n) && (d <= -1 ==> d * n <= -n)
  {}

  lemma Quotient(a: int, q: int, n: int, r: int)
    requires 0 <= r < n && a == q * n + r
    ensures a / n == q && a % n == r
  {
    var d := a / n - q;
    assert a == a / n * n + a % n;
    assert d * n == r - a % n;
    Multiple(d, n);
  }
}
