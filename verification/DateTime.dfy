/**
 * Conversions between Unix time and calendar dates, with the fixed-width arithmetic they are
 * written in, against the Gregorian calendar.
 */
module DateTime {
  import opened Calendar

  type U8 = x: int | 0 <= x < 0x100
  type U16 = x: int | 0 <= x < 0x1_0000

  /** Arithmetic of uint32_t and of a 32-bit uint_t. */
  function U32(x: int): (r: int)
    ensures 0 <= r < 0x1_0000_0000
    ensures 0 <= x < 0x1_0000_0000 ==> r == x
  {
    x % 0x1_0000_0000
  }

  datatype Stamp = Stamp(year: U16, month: U8, day: U8, dayOfWeek: U8,
                         hours: U8, minutes: U8, seconds: U8, milliseconds: U16)
  {
    function Day(): Date { Date(year, month, day) }

    /** A moment that exists. */
    predicate Valid() {
      Exists(Day()) && hours < 24 && minutes < 60 && seconds < 60 && milliseconds < 1000
    }
  }

  // ----- the code that only computes a result -----------------------------------------------------

  /** The sum in Zeller's congruence. */
  function ZellerSum(y: int, m: int, day: int): int {
    var j, k := y / 100, y % 100;
    day + 26 * (m + 1) / 10 + k + k / 4 + 5 * j + j / 4
  }

  /** computeDayOfWeek: Zeller's congruence, Monday is 1. */
  function ComputeDayOfWeek(y0: U16, m0: U8, d: U8): U8 {
    var m := if m0 <= 2 then m0 + 12 else m0;
    var y := if m0 <= 2 then (y0 - 1) % 0x1_0000 else y0;
    (ZellerSum(y, m, d) + 5) % 7 + 1
  }

  /** convertDateToUnixTime64 */
  function ToUnix(s: Stamp): int {
    var m := if s.month <= 2 then s.month + 12 else s.month;
    var y := if s.month <= 2 then U32(s.year - 1) else s.year;
    var days := U32(U32(365 * y) + y / 4 - y / 100 + y / 400) + U32(30 * m + 3 * (m + 1) / 5 + s.day) - 719561;
    days * 86400 + 3600 * s.hours + 60 * s.minutes + s.seconds
  }

  /** compareDateTime */
  function Compare(a: Stamp, b: Stamp): int {
    if a.year < b.year then -1
    else if a.year > b.year then 1
    else if a.month < b.month then -1
    else if a.month > b.month then 1
    else if a.day < b.day then -1
    else if a.day > b.day then 1
    else if a.hours < b.hours then -1
    else if a.hours > b.hours then 1
    else if a.minutes < b.minutes then -1
    else if a.minutes > b.minutes then 1
    else if a.seconds < b.seconds then -1
    else if a.seconds > b.seconds then 1
    else if a.milliseconds < b.milliseconds then -1
    else if a.milliseconds > b.milliseconds then 1
    else 0
  }

  // ----- counting days ------------------------------------------------------------------------------

  /** The year that begins in March. */
  function MarchYear(d: Date): int {
    if d.month <= 2 then d.year - 1 else d.year
  }

  function MarchMonth(d: Date): int {
    if d.month <= 2 then d.month + 12 else d.month
  }

  function YearDays(y: int): int {
    365 * y + y / 4 - y / 100 + y / 400
  }

  function MonthDays(m: int): int {
    30 * m + 3 * (m + 1) / 5
  }

  /** Days from 1 January 1970, by the formula of the code without its widths. */
  function Count(d: Date): int {
    YearDays(MarchYear(d)) + MonthDays(MarchMonth(d)) + d.day - 719561
  }

  lemma DivisorSteps(y: int)
    ensures y / 4 - (y - 1) / 4 == if y % 4 == 0 then 1 else 0
    ensures y / 100 - (y - 1) / 100 == if y % 100 == 0 then 1 else 0
    ensures y / 400 - (y - 1) / 400 == if y % 400 == 0 then 1 else 0
    ensures y % 400 == 0 ==> y % 100 == 0
    ensures y % 100 == 0 ==> y % 4 == 0
  {
  }

  lemma YearLength(y: int)
    ensures YearDays(y) - YearDays(y - 1) == if Leap(y) then 366 else 365
  {
    DivisorSteps(y);
  }

  lemma MonthTable()
    ensures MonthDays(3) == 92 && MonthDays(4) == 123 && MonthDays(5) == 153 && MonthDays(6) == 184
    ensures MonthDays(7) == 214 && MonthDays(8) == 245 && MonthDays(9) == 276 && MonthDays(10) == 306
    ensures MonthDays(11) == 337 && MonthDays(12) == 367 && MonthDays(13) == 398 && MonthDays(14) == 429
  {
  }

  /** The formula counts one for every next day. */
  lemma CountNext(d: Date)
    requires Exists(d)
    ensures Exists(NextDay(d)) && Count(NextDay(d)) == Count(d) + 1
  {
    MonthTable();
    YearLength(d.year);
    hide YearDays, MonthDays, Leap;
  }

  lemma {:induction false} CountAt(n: nat)
    ensures Exists(DayAt(n)) && DayAt(n).year >= 1970 && Count(DayAt(n)) == n
  {
    if n > 0 {
      CountAt(n - 1);
      CountNext(DayAt(n - 1));
      hide Count, Exists;
    }
  }

  lemma {:induction false} YearsAscend(y: int, z: int)
    requires y < z
    ensures YearDays(y) + 365 <= YearDays(z)
    decreases z - y
  {
    YearLength(z);
    hide YearDays;
    if y < z - 1 {
      YearsAscend(y, z - 1);
    }
  }

  /** A day lies within its March-based year. */
  lemma WithinYear(d: Date)
    requires Exists(d)
    ensures 93 <= MonthDays(MarchMonth(d)) + d.day <= 458
    ensures MonthDays(MarchMonth(d)) + d.day == 458 ==> Leap(MarchYear(d) + 1)
  {
    MonthTable();
    hide MonthDays;
  }

  lemma MonthsAscend(d: Date, e: Date)
    requires Exists(d) && Exists(e) && MarchYear(d) == MarchYear(e)
    requires MarchMonth(d) < MarchMonth(e)
    ensures MonthDays(MarchMonth(d)) + d.day < MonthDays(MarchMonth(e)) + e.day
  {
    MonthTable();
    hide MonthDays, Leap;
  }

  /** Later dates count higher. */
  lemma CountAscends(d: Date, e: Date)
    requires Exists(d) && Exists(e) && Before(d, e)
    ensures Count(d) < Count(e)
  {
    if MarchYear(d) < MarchYear(e) {
      if MarchYear(d) + 1 < MarchYear(e) {
        YearsAscend(MarchYear(d), MarchYear(e) - 1);
      }
      YearLength(MarchYear(d) + 1);
      YearLength(MarchYear(e));
      WithinYear(d);
      WithinYear(e);
      hide YearDays, MonthDays, Leap, Exists;
    } else {
      hide YearDays, Leap;
      if MarchMonth(d) < MarchMonth(e) {
        MonthsAscend(d, e);
      }
    }
  }

  // ----- the divisions that take a day count apart ------------------------------------------------

  /** Day of the March-based year, from 0. */
  function DayOfYear(d: Date): int {
    MonthDays(MarchMonth(d)) + d.day - 93
  }

  lemma DayOfYearBound(d: Date)
    requires Exists(d)
    ensures 0 <= DayOfYear(d) <= 365
    ensures DayOfYear(d) == 365 ==> Leap(MarchYear(d) + 1)
  {
    WithinYear(d);
    hide MonthDays, Leap, Exists;
  }

  /** The last day of a century counted from March is its 36524th, or 36525th before a leap century. */
  lemma DayOfCentury(y: int, doy: int)
    requires 0 <= doy <= 365 && (doy == 365 ==> Leap(y + 1))
    ensures var r := y % 100; 0 <= 365 * r + r / 4 + doy <= 36523 + (if y / 100 % 4 == 3 then 1 else 0)
  {
    var r := y % 100;
    if r == 99 {
      assert (y + 1) % 100 == 0;
    }
  }

  lemma SplitCentury(y: int)
    ensures YearDays(y) == 36524 * (y / 100) + y / 100 / 4 + 365 * (y % 100) + y % 100 / 4
  {
    var c, r := y / 100, y % 100;
    assert y == 100 * c + r;
    assert y / 4 == 25 * c + r / 4;
    assert y / 400 == c / 4;
  }

  /** a in the code: the century, up to a constant. */
  lemma Century(d: Date, n: int)
    requires Exists(d) && n == Count(d) >= 0
    ensures (4 * n + 102032) / 146097 == MarchYear(d) / 100 - 19
  {
    var y, doy := MarchYear(d), DayOfYear(d);
    DayOfYearBound(d);
    DayOfCentury(y, doy);
    SplitCentury(y);
    var c, r := y / 100, y % 100;
    hide YearDays, MonthDays, Exists, Leap, MarchYear, MarchMonth;
    var x := 365 * r + r / 4 + doy;
    assert n == 36524 * c + c / 4 + x + 93 - 719561;
    assert 4 * n + 102032 == 146097 * (c - 19) + (4 * x + 3 - c % 4);
    Quotient(4 * n + 102032, 146097, c - 19);
  }

  lemma Scale(m: int, a: int, b: int)
    requires m > 0
    ensures a <= b ==> m * a <= m * b
  {
  }

  lemma Quotient(x: int, m: int, q: int)
    requires m > 0 && m * q <= x < m * q + m
    ensures x / m == q
  {
    Scale(m, x / m + 1, q);
    Scale(m, q + 1, x / m);
  }

  /** b in the code: a day count in which every fourth year is long. */
  function Julian(d: Date): int {
    var c := MarchYear(d) + 4716;
    365 * c + c / 4 + DayOfYear(d) + 123
  }

  lemma JulianDays(d: Date)
    ensures var c := MarchYear(d) / 100; Julian(d) == Count(d) + 2442113 + (c - 4) - (c - 4) / 4
  {
    var y := MarchYear(d);
    hide MonthDays, MarchMonth, MarchYear;
    assert y / 400 == y / 100 / 4;
  }

  /** c in the code: the year. */
  lemma YearOf(d: Date)
    requires Exists(d)
    ensures (20 * Julian(d) - 2442) / 7305 == MarchYear(d) + 4716
  {
    hide MonthDays, MarchMonth, MarchYear, DayOfYear;
    DayOfYearBound(d);
    YearBefore(MarchYear(d) + 4716, DayOfYear(d));
  }

  lemma YearBefore(c: int, doy: int)
    requires 0 <= doy <= 365 && (doy == 365 ==> Leap(c - 4716 + 1))
    ensures (20 * (365 * c + c / 4 + doy + 123) - 2442) / 7305 == c
  {
    if doy == 365 {
      assert c % 4 == 3;
    }
    hide Leap;
    var q, r := c / 4, c % 4;
    assert c == 4 * q + r;
    Quotient(20 * (365 * c + q + doy + 123) - 2442, 7305, c);
  }

  /** e and f in the code: the month and the day. */
  lemma MonthOf(d: Date)
    requires Exists(d)
    ensures var k := DayOfYear(d) + 123; var e := k * 1000 / 30601;
            e == MarchMonth(d) + 1 && k - e * 30 - e * 601 / 1000 == d.day
  {
    MonthTable();
    hide MonthDays, Leap, MarchYear;
  }

  // ----- convertUnixTimeToDate64 -------------------------------------------------------------------

  /** Days of the wider calendar after which the 32-bit intermediates of the conversion wrap. */
  const DAY_LIMIT := 200_000_000

  function DaysOf(u: nat): (n: nat) {
    u / 86400
  }

  function HoursOf(u: nat): (h: U8)
    ensures h < 24
  {
    u / 3600 % 24
  }

  function MinutesOf(u: nat): (m: U8)
    ensures m < 60
  {
    u / 60 % 60
  }

  function SecondsOf(u: nat): (s: U8)
    ensures s < 60
  {
    u % 60
  }

  /** Negative times are not supported and read as 0. */
  function Clamp(t: int): nat {
    if t < 1 then 0 else t
  }

  /** A date and a time of day in the fields of their widths, with the weekday. */
  function StampOf(d: Date, u: nat): (s: Stamp)
    requires 1 <= d.year && 1 <= d.month <= 12 && 1 <= d.day <= 31
  {
    var y: U16 := d.year % 0x1_0000;
    Stamp(y, d.month, d.day, ComputeDayOfWeek(y, d.month, d.day), HoursOf(u), MinutesOf(u), SecondsOf(u), 0)
  }

  /** The date and time t seconds after the start of 1970. */
  function StampAt(t: int): Stamp {
    CountAt(DaysOf(Clamp(t)));
    StampOf(DayAt(DaysOf(Clamp(t))), Clamp(t))
  }

  /** Far enough from the limit, no intermediate wraps. */
  lemma InRange(d: Date, n: int)
    requires Exists(d) && d.year >= 1970 && n == Count(d) && 0 <= n < DAY_LIMIT
    ensures 1969 <= MarchYear(d) <= 600_000
    ensures 0 <= Julian(d) <= 214_000_000 && 0 <= DayOfYear(d) <= 365
  {
    DayOfYearBound(d);
    var y := MarchYear(d);
    hide MonthDays, MarchMonth;
    assert n == YearDays(y) + DayOfYear(d) + 93 - 719561;
    hide DayOfYear;
    assert 365 * y <= n + 719561 - 93 + y / 100;
  }

  /** The 32-bit values of a, b, c, d, e and f for the n-th day. */
  lemma Divisions(d: Date, n: int)
    requires Exists(d) && d.year >= 1970 && n == Count(d) && 0 <= n < DAY_LIMIT
    ensures U32((4 * n + 102032) / 146097 + 15) == MarchYear(d) / 100 - 4
    ensures U32(n + 2442113 + (MarchYear(d) / 100 - 4) - (MarchYear(d) / 100 - 4) / 4) == Julian(d)
    ensures U32(U32(20 * Julian(d)) - 2442) / 7305 == MarchYear(d) + 4716
  {
    InRange(d, n);
    Century(d, n);
    JulianDays(d);
    YearOf(d);
    assert 20 * Julian(d) - 2442 >= 0;
    hide Count, Exists, MarchYear, DayOfYear;
  }

  lemma LowerDivisions(d: Date, n: int)
    requires Exists(d) && d.year >= 1970 && n == Count(d) && 0 <= n < DAY_LIMIT
    ensures var c := MarchYear(d) + 4716; U32(Julian(d) - U32(365 * c) - c / 4) == DayOfYear(d) + 123
    ensures U32((DayOfYear(d) + 123) * 1000) / 30601 == MarchMonth(d) + 1
    ensures var e := MarchMonth(d) + 1; U32(DayOfYear(d) + 123 - U32(e * 30) - U32(e * 601) / 1000) == d.day
  {
    InRange(d, n);
    MonthOf(d);
    assert 1 <= d.day <= 31 && 3 <= MarchMonth(d) <= 14;
    hide Count, Exists, MarchYear, MarchMonth, DayOfYear;
  }

  lemma BackFromMarch(d: Date)
    requires Exists(d) && d.year >= 1970 && d.year < 700_000
    ensures var c, e := MarchYear(d) + 4716, MarchMonth(d) + 1;
            d == if e <= 13 then Date(U32(c - 4716), U32(e - 1), d.day) else Date(U32(c - 4715), U32(e - 13), d.day)
  {
  }

  /** All the values the conversion goes through on its way to the n-th day. */
  lemma Steps(n: int) returns (y: int, m: int, k: int, j: int, day: int)
    requires 0 <= n < DAY_LIMIT
    ensures U32((4 * n + 102032) / 146097 + 15) == y / 100 - 4
    ensures U32(n + 2442113 + (y / 100 - 4) - (y / 100 - 4) / 4) == j
    ensures U32(U32(20 * j) - 2442) / 7305 == y + 4716
    ensures U32(j - U32(365 * (y + 4716)) - (y + 4716) / 4) == k
    ensures U32(k * 1000) / 30601 == m + 1
    ensures U32(k - U32((m + 1) * 30) - U32((m + 1) * 601) / 1000) == day
    ensures DayAt(n) == if m + 1 <= 13 then Date(U32(y + 4716 - 4716), U32(m + 1 - 1), day)
                        else Date(U32(y + 4716 - 4715), U32(m + 1 - 13), day)
  {
    var d := DayAt(n);
    y, m, k, j, day := MarchYear(d), MarchMonth(d), DayOfYear(d) + 123, Julian(d), d.day;
    CountAt(n);
    InRange(d, n);
    BackFromMarch(d);
    hide Count, Exists, MarchYear, MarchMonth, DayOfYear, Julian, U32;
    Divisions(d, n);
    LowerDivisions(d, n);
  }

  /** Day counts that a year field of zero, in January or February, is converted back to. */
  predicate YearZeroWindow(n: int) {
    1_040_810_010 <= n <= 1_040_810_327
  }

  lemma WindowAfterCentury(n: int, a: int)
    requires YearZeroWindow(n) && 28_511 <= a <= 28_513
    ensures U32(a) == a && 504_000 <= U32(U32(20 * U32(n + 2442113 + a - a / 4)) - 2442) / 7305 <= 505_000
  {
    assert 21_383 <= a - a / 4 <= 21_387;
    var b := n + 2442113 + a - a / 4;
    assert 1_043_273_506 <= b <= 1_043_273_827;
    assert U32(b) == b;
    assert U32(20 * b) == 20 * b - 4 * 0x1_0000_0000;
  }

  lemma InWindow(n: int)
    requires YearZeroWindow(n)
    ensures var a := U32((4 * n + 102032) / 146097 + 15);
            var c := U32(U32(20 * U32(n + 2442113 + a - a / 4)) - 2442) / 7305;
            504_000 <= c <= 505_000
  {
    var q := (4 * n + 102032) / 146097;
    assert 28_496 <= q <= 28_498;
    WindowAfterCentury(n, q + 15);
  }

  /** The divisions of the code, in 32-bit arithmetic, find the n-th day after the epoch. */
  method SplitDays(n: int) returns (year: int, month: int, day: int)
    requires 0 <= n
    ensures 0 <= year && 0 <= month && 0 <= day
    ensures n < DAY_LIMIT ==> Date(year, month, day) == DayAt(n)
    ensures YearZeroWindow(n) ==> 499_000 <= year <= 501_000
  {
    hide *;
    var a := U32((4 * n + 102032) / 146097 + 15);
    var b := U32(n + 2442113 + a - a / 4);
    var c := U32(U32(20 * b) - 2442) / 7305;
    if YearZeroWindow(n) {
      InWindow(n);
    }
    year, month, day := SplitYear(n, b, c);
  }

  /** The second half: the day of the year, and the month and day in it. */
  method SplitYear(ghost n: int, b: int, c0: int) returns (year: int, month: int, day: int)
    requires 0 <= n && 0 <= c0
    requires n < DAY_LIMIT ==> b == U32(n + 2442113 + U32((4 * n + 102032) / 146097 + 15) - U32((4 * n + 102032) / 146097 + 15) / 4)
    requires n < DAY_LIMIT ==> c0 == U32(U32(20 * b) - 2442) / 7305
    ensures 0 <= year && 0 <= month && 0 <= day
    ensures n < DAY_LIMIT ==> Date(year, month, day) == DayAt(n)
    ensures 5000 <= c0 <= 1_000_000 ==> c0 - 4716 <= year <= c0 - 4715
  {
    hide *;
    if n < DAY_LIMIT {
      ghost var y, m, k, j, f0 := Steps(n);
    }
    var c := c0;
    var d := U32(b - U32(365 * c) - c / 4);
    var e := U32(d * 1000) / 30601;
    var f := U32(d - U32(e * 30) - U32(e * 601) / 1000);
    if e <= 13 {
      c := U32(c - 4716);
      e := U32(e - 1);
    } else {
      c := U32(c - 4715);
      e := U32(e - 13);
    }
    year, month, day := c, e, f;
  }

  // ----- the conversions undo each other ----------------------------------------------------------

  /** Where the unsigned arithmetic does not wrap: everywhere but in January and February of year 0. */
  lemma ToUnixIs(s: Stamp)
    requires s.year > 0 || s.month > 2
    ensures ToUnix(s) == Count(s.Day()) * 86400 + 3600 * s.hours + 60 * s.minutes + s.seconds
  {
    var y, m := MarchYear(s.Day()), MarchMonth(s.Day());
    NoWrapYears(y);
    NoWrapMonths(m, s.day);
    hide U32;
  }

  lemma NoWrapYears(y: int)
    requires 0 <= y < 0x1_0000
    ensures U32(y) == y && U32(U32(365 * y) + y / 4 - y / 100 + y / 400) == YearDays(y)
  {
  }

  lemma NoWrapMonths(m: int, day: int)
    requires 3 <= m <= 257 && 0 <= day < 256
    ensures U32(30 * m + 3 * (m + 1) / 5 + day) == MonthDays(m) + day
  {
  }

  /** The formula of convertDateToUnixTime64 is the day count, for every date that exists. */
  lemma ToUnixCounts(s: Stamp)
    requires Exists(s.Day())
    ensures ToUnix(s) == Count(s.Day()) * 86400 + 3600 * s.hours + 60 * s.minutes + s.seconds
  {
    hide Count, ToUnix;
    ToUnixIs(s);
  }

  /** Different dates have different counts. */
  lemma CountInjective(d: Date, e: Date)
    requires Exists(d) && Exists(e) && Count(d) == Count(e)
    ensures d == e
  {
    hide Count;
    if Before(d, e) {
      CountAscends(d, e);
    } else if Before(e, d) {
      CountAscends(e, d);
    }
  }

  lemma CountOfEpoch()
    ensures Exists(EPOCH) && Count(EPOCH) == 0
  {
  }

  /** A date is found again from its count. */
  lemma DayAtCount(d: Date)
    requires Exists(d) && d.year >= 1970
    ensures Count(d) >= 0 && DayAt(Count(d)) == d
  {
    CountOfEpoch();
    assert d == EPOCH || Before(EPOCH, d);
    hide Count, Exists, DayAt, Before;
    if d != EPOCH {
      CountAscends(EPOCH, d);
    }
    CountAt(Count(d));
    CountInjective(d, DayAt(Count(d)));
  }

  lemma SplitSeconds(n: nat, h: nat, m: nat, s: nat)
    requires h < 24 && m < 60 && s < 60
    ensures var t := n * 86400 + 3600 * h + 60 * m + s;
            DaysOf(t) == n && HoursOf(t) == h && MinutesOf(t) == m && SecondsOf(t) == s
  {
    var t := n * 86400 + 3600 * h + 60 * m + s;
    Quotient(t, 86400, n);
    Quotient(t, 3600, 24 * n + h);
    Quotient(t, 60, 1440 * n + 60 * h + m);
    Quotient(24 * n + h, 24, n);
    Quotient(1440 * n + 60 * h + m, 60, 24 * n + h);
  }

  lemma JoinSeconds(u: nat)
    ensures u == DaysOf(u) * 86400 + 3600 * HoursOf(u) + 60 * MinutesOf(u) + SecondsOf(u)
  {
    assert u / 3600 == u / 60 / 60 && u / 86400 == u / 3600 / 24;
  }

  /** A valid date from 1970 on is restored, up to its milliseconds. */
  lemma DateRoundTrip(s: Stamp)
    requires s.Valid() && s.year >= 1970
    ensures ToUnix(s) >= 0
    ensures StampAt(ToUnix(s))
         == s.(dayOfWeek := ComputeDayOfWeek(s.year, s.month, s.day), milliseconds := 0)
  {
    hide Count, ToUnix, DayAt, ComputeDayOfWeek, HoursOf, MinutesOf, SecondsOf, DaysOf;
    ToUnixCounts(s);
    DayAtCount(s.Day());
    SplitSeconds(Count(s.Day()), s.hours, s.minutes, s.seconds);
  }

  /** The last second of the year 65535. */
  const LAST := 23_217_003 * 86400 + 86399

  lemma LastDay(n: nat)
    ensures n <= 23_217_003 <==> DayAt(n).year <= 65535
  {
    LastDate();
    hide Count, DayAt;
    var last, d := Date(65535, 12, 31), DayAt(n);
    CountAt(n);
    if Before(last, d) {
      CountAscends(last, d);
    } else if Before(d, last) {
      CountAscends(d, last);
    }
  }

  lemma LastDate()
    ensures Count(Date(65535, 12, 31)) == 23_217_003
  {
  }

  /** Past the year field's range the year is cut and the count falls short. */
  lemma CutYear(d: Date, s: Stamp)
    requires Exists(d) && d.year > 65535 && s.year == d.year % 0x1_0000 && s.month == d.month && s.day == d.day
    requires s.year > 0 || d.month > 2
    requires s.hours < 24 && s.minutes < 60 && s.seconds < 60
    ensures ToUnix(s) < Count(d) * 86400
  {
    hide ToUnix, YearDays, MonthDays;
    var y, z := MarchYear(s.Day()), MarchYear(d);
    YearsAscend(y, z);
    assert Count(s.Day()) + 365 <= Count(d);
    ToUnixIs(s);
  }

  /** January and February of a year field of zero: the year before wraps to the largest 32-bit number. */
  lemma YearZero(s: Stamp)
    requires s.year == 0 && s.month <= 2
    ensures YearZeroWindow((ToUnix(s) - 3600 * s.hours - 60 * s.minutes - s.seconds) / 86400)
  {
    var y, m := U32(-1), s.month + 12;
    assert y == 0xFFFF_FFFF && U32(365 * y) == 4294966931;
    var years, days := U32(U32(365 * y) + y / 4 - y / 100 + y / 400), 30 * m + 3 * (m + 1) / 5 + s.day;
    assert years == 1041529204 && 367 <= days <= 684 && U32(days) == days;
    hide U32;
    assert ToUnix(s) == (years + days - 719561) * 86400 + 3600 * s.hours + 60 * s.minutes + s.seconds;
  }

  /** Where the round trip from a timestamp holds: exactly up to the last second of the year 65535. */
  lemma TimestampRoundTrip(t: int)
    requires t < DAY_LIMIT * 86400
    ensures ToUnix(StampAt(t)) == t <==> 0 <= t <= LAST
  {
    var u := Clamp(t);
    var d, s := DayAt(DaysOf(u)), StampAt(t);
    CountAt(DaysOf(u));
    JoinSeconds(u);
    LastDay(DaysOf(u));
    hide Count, DayAt, ComputeDayOfWeek, ToUnix, YearZeroWindow, HoursOf, MinutesOf, SecondsOf, DaysOf;
    if d.year <= 65535 {
      assert s.Day() == d;
      ToUnixCounts(s);
    } else if s.year == 0 && s.month <= 2 {
      YearZero(s);
      WindowIsFar(u, s);
    } else {
      CutYear(d, s);
    }
  }

  lemma WindowIsFar(u: nat, s: Stamp)
    requires YearZeroWindow((ToUnix(s) - 3600 * s.hours - 60 * s.minutes - s.seconds) / 86400)
    requires u < DAY_LIMIT * 86400
    ensures ToUnix(s) > u
  {
  }

  /** Any other field values give fewer days than the limit. */
  lemma ToUnixSmall(s: Stamp)
    requires s.year > 0 || s.month > 2
    requires s.hours < 24 && s.minutes < 60 && s.seconds < 60
    ensures ToUnix(s) < DAY_LIMIT * 86400
  {
    var m := if s.month <= 2 then s.month + 12 else s.month;
    var y := if s.month <= 2 then s.year - 1 else s.year;
    assert 0 <= 365 * y + y / 4 - y / 100 + y / 400 < 30_000_000;
    assert 0 <= 30 * m + 3 * (m + 1) / 5 + s.day < 10_000;
  }

  /** Past the limit no timestamp comes back. */
  lemma FarTimestamp(u: nat, year: nat, s: Stamp)
    requires u >= DAY_LIMIT * 86400 && s.year == year % 0x1_0000
    requires s.hours == HoursOf(u) && s.minutes == MinutesOf(u) && s.seconds == SecondsOf(u)
    requires YearZeroWindow(DaysOf(u)) ==> 499_000 <= year <= 501_000
    ensures ToUnix(s) != u
  {
    if s.year > 0 || s.month > 2 {
      ToUnixSmall(s);
    } else {
      YearZero(s);
      JoinSeconds(u);
      hide ToUnix, HoursOf, MinutesOf, SecondsOf;
    }
  }

  /** The record a caller passes in to be filled. */
  class Record {
    var year: U16
    var month: U8
    var day: U8
    var dayOfWeek: U8
    var hours: U8
    var minutes: U8
    var seconds: U8
    var milliseconds: U16

    function Value(): Stamp
      reads this
    {
      Stamp(year, month, day, dayOfWeek, hours, minutes, seconds, milliseconds)
    }
  }

  /** The successive divisions of the code. */
  lemma DivisionChain(u: nat)
    ensures u % 60 == SecondsOf(u) && u / 60 % 60 == MinutesOf(u)
    ensures u / 60 / 60 % 24 == HoursOf(u) && u / 60 / 60 / 24 == DaysOf(u)
  {
    assert u / 60 / 60 == u / 3600 && u / 60 / 60 / 24 == u / 86400;
  }

  /** convertUnixTimeToDate64 */
  method ConvertUnixTimeToDate64(t0: int, date: Record)
    modifies date
    ensures t0 < DAY_LIMIT * 86400 ==> date.Value() == StampAt(t0)
    ensures ToUnix(date.Value()) == t0 <==> 0 <= t0 <= LAST
  {
    ghost var u := Clamp(t0);
    var t := t0;
    if t < 1 {
      t := 0;
    }
    DivisionChain(u);
    date.milliseconds := 0;
    date.seconds := t % 60;
    t := t / 60;
    date.minutes := t % 60;
    t := t / 60;
    date.hours := t % 24;
    t := t / 24;
    hide *;
    var year, month, day := SplitDays(t);
    date.year := year % 0x1_0000;
    date.month := month % 0x100;
    date.day := day % 0x100;
    date.dayOfWeek := ComputeDayOfWeek(date.year, date.month, date.day);
    Filled(t0, year, month, day, date);
  }

  /** What the filled record holds. */
  lemma Filled(t: int, year: nat, month: nat, day: nat, date: Record)
    requires date.year == year % 0x1_0000 && date.month == month % 0x100 && date.day == day % 0x100
    requires date.dayOfWeek == ComputeDayOfWeek(date.year, date.month, date.day) && date.milliseconds == 0
    requires var u := Clamp(t); date.hours == HoursOf(u) && date.minutes == MinutesOf(u) && date.seconds == SecondsOf(u)
    requires DaysOf(Clamp(t)) < DAY_LIMIT ==> Date(year, month, day) == DayAt(DaysOf(Clamp(t)))
    requires YearZeroWindow(DaysOf(Clamp(t))) ==> 499_000 <= year <= 501_000
    ensures t < DAY_LIMIT * 86400 ==> date.Value() == StampAt(t)
    ensures ToUnix(date.Value()) == t <==> 0 <= t <= LAST
  {
    var u := Clamp(t);
    hide Count, ToUnix, DayAt, ComputeDayOfWeek, HoursOf, MinutesOf, SecondsOf, YearZeroWindow;
    if t < DAY_LIMIT * 86400 {
      assert DaysOf(u) < DAY_LIMIT;
      CountAt(DaysOf(u));
      hide DaysOf;
      assert date.Value() == StampAt(t);
      TimestampRoundTrip(t);
    } else {
      hide DaysOf;
      FarTimestamp(u, year, date.Value());
    }
  }

  // ----- day of week -----------------------------------------------------------------------------------

  lemma ZellerTerm(m: nat)
    ensures 26 * (m + 1) / 10 == 2 * m + 2 + 3 * (m + 1) / 5
  {
  }

  lemma SevenOff(x: int, q: int)
    ensures (x + 7 * q) % 7 == x % 7
  {
  }

  lemma ZellerCounts(y: int, m: nat, day: int)
    ensures (YearDays(y) + MonthDays(m) + day - 719561 + 3) % 7 == (ZellerSum(y, m, day) + 5) % 7
  {
    SplitCentury(y);
    ZellerTerm(m);
    hide YearDays;
    var q := 5217 * (y / 100) + 52 * (y % 100) + 4 * m - 102_795;
    assert YearDays(y) + MonthDays(m) + day - 719561 + 3 == ZellerSum(y, m, day) + 5 + 7 * q;
    SevenOff(ZellerSum(y, m, day) + 5, q);
  }

  lemma WeekdayIsZeller(d: Date)
    requires 1 <= d.year <= 65535 && 1 <= d.month <= 12 && 1 <= d.day <= 31
    ensures ComputeDayOfWeek(d.year, d.month, d.day)
         == (ZellerSum(MarchYear(d), MarchMonth(d), d.day) + 5) % 7 + 1
  {
    hide ZellerSum;
  }

  /** Zeller's congruence is the day count modulo 7; 1 January 1970 was a Thursday. */
  lemma Weekday(d: Date)
    requires Exists(d) && d.year <= 65535
    ensures ComputeDayOfWeek(d.year, d.month, d.day) == (Count(d) + 3) % 7 + 1
  {
    var y, m := MarchYear(d), MarchMonth(d);
    assert 3 <= m <= 14;
    hide YearDays, MonthDays, ZellerSum, ComputeDayOfWeek, MarchYear, MarchMonth, Leap;
    ZellerCounts(y, m, d.day);
    WeekdayIsZeller(d);
    assert Count(d) + 3 == YearDays(y) + MonthDays(m) + d.day - 719561 + 3;
  }

  /** The days run through the week in order from a Thursday. */
  lemma WeekdayOfDay(n: nat)
    requires DayAt(n).year <= 65535
    ensures var d := DayAt(n);
            && 1 <= d.year && 1 <= d.month <= 12 && 1 <= d.day <= 31
            && ComputeDayOfWeek(d.year, d.month, d.day) == (n + 3) % 7 + 1
  {
    hide Count, DayAt, ComputeDayOfWeek;
    CountAt(n);
    Weekday(DayAt(n));
  }

  lemma KnownCounts()
    ensures Exists(Date(1970, 1, 1)) && Count(Date(1970, 1, 1)) == 0
    ensures Exists(Date(2000, 2, 29)) && Count(Date(2000, 2, 29)) == 11016
  {
  }

  /** 1970-01-01 00:00:00 is 0, and was a Thursday. */
  lemma KnownEpoch(s: Stamp)
    requires s == Stamp(1970, 1, 1, 4, 0, 0, 0, 0)
    ensures ToUnix(s) == 0 && ComputeDayOfWeek(s.year, s.month, s.day) == 4
  {
    hide ToUnix, ComputeDayOfWeek, Count, Exists;
    KnownCounts();
    ToUnixCounts(s);
    Weekday(s.Day());
  }

  /** 2000-02-29 12:34:56 is 951827696, and was a Tuesday. */
  lemma KnownLeapDay(s: Stamp)
    requires s == Stamp(2000, 2, 29, 2, 12, 34, 56, 0)
    ensures ToUnix(s) == 951_827_696 && ComputeDayOfWeek(s.year, s.month, s.day) == 2
  {
    hide ToUnix, ComputeDayOfWeek, Count, Exists;
    KnownCounts();
    ToUnixCounts(s);
    Weekday(s.Day());
  }

  // ----- comparing --------------------------------------------------------------------------------------

  /** Milliseconds since the start of 1970. */
  function Moment(s: Stamp): int {
    ToUnix(s) * 1000 + s.milliseconds
  }

  /** A later day is later, whatever the times of day. */
  lemma LaterDay(a: Stamp, b: Stamp)
    requires a.Valid() && b.Valid() && Before(a.Day(), b.Day())
    ensures Moment(a) < Moment(b)
  {
    ToUnixCounts(a);
    ToUnixCounts(b);
    CountAscends(a.Day(), b.Day());
    hide ToUnix, Count, Exists, Before;
  }

  /** compareDateTime orders valid dates as their timestamps do. */
  lemma CompareOrders(a: Stamp, b: Stamp)
    requires a.Valid() && b.Valid()
    ensures Compare(a, b) == (if Moment(a) < Moment(b) then -1 else if Moment(a) > Moment(b) then 1 else 0)
  {
    if Before(a.Day(), b.Day()) {
      LaterDay(a, b);
      hide Moment, Exists;
    } else if Before(b.Day(), a.Day()) {
      LaterDay(b, a);
      hide Moment, Exists;
    } else {
      assert a.Day() == b.Day();
      ToUnixCounts(a);
      ToUnixCounts(b);
      hide ToUnix, Count, Exists, Before;
    }
  }
}
