/** The Persian date picker of frontend/src/pages/dashboard/Profile.tsx:
    month lengths, the leap-year scan over its table of breaks, month
    navigation and the day-of-year offset used to build a date. */
module ProfileDatePicker {

  /** The `breaks` table of `isLeapYear`. */
  const Breaks: seq<int> := [128, 29, 33, 37, 41, 45, 49, 53, 57, 61, 65, 69, 73, 77, 81, 85, 89, 93, 97, 101, 105, 109, 113, 117, 121, 125]

  /** JavaScript's `%`: the remainder takes the sign of the dividend. */
  function JsRem(a: int, b: int): (r: int)
    requires b > 0
    ensures a >= 0 ==> 0 <= r < b && r == a % b
    ensures a < 0 ==> -b < r <= 0
  {
    if a >= 0 then a % b else -((-a) % b)
  }

  /** The last line of `isLeapYear`, given the `jp` and `jump` the scan left. */
  function LeapAfterScan(year: int, jp: int, jump: int): bool
  {
    var n := year - jp;
    if jump - n < 6 then JsRem(n - jump + 38 + 682, 128) <= 29
    else JsRem(n - jump + 39 + 682, 128) <= 29
  }

  /** The index at which the scan over `breaks` stops: the first index
      from `j` on whose entry exceeds the year, or the length of the table. */
  function StopIndex(breaks: seq<int>, year: int, j: nat): (k: nat)
    requires j <= |breaks|
    ensures j <= k <= |breaks|
    ensures forall i :: j <= i < k ==> breaks[i] <= year
    ensures k < |breaks| ==> year < breaks[k]
    decreases |breaks| - j
  {
    if j == |breaks| then j
    else if year < breaks[j] then j
    else StopIndex(breaks, year, j + 1)
  }

  /** The closing formula applied to where the scan over `breaks` stops. */
  function LeapOver(breaks: seq<int>, year: int): bool
    requires |breaks| >= 2
  {
    var k := StopIndex(breaks, year, 1);
    if k < |breaks| then LeapAfterScan(year, breaks[k - 1], breaks[k] - breaks[k - 1])
    else LeapAfterScan(year, breaks[|breaks| - 1], breaks[|breaks| - 1] - breaks[|breaks| - 2])
  }

  /** What `isLeapYear` computes. For every year from 125 on (the picker
      keeps years in 1300 to 1500) the scan runs to the end of the table and
      the rule collapses to one residue test. */
  function LeapAsWritten(year: int): (leap: bool)
    ensures year >= 125 ==> (leap <==> (year + 591) % 128 <= 29)
  {
    if year >= 125 then
      var b := Breaks;
      assert |b| == 26 && b[24] == 121 && b[25] == 125;
      assert forall i :: 1 <= i < |b| ==> b[i] <= 125;
      ScanRunsOut(b, year, 1);
      assert 4 - (year - 125) < 6;
      LeapOver(b, year)
    else LeapOver(Breaks, year)
  }

  /** The loop of `isLeapYear` over a table of breaks. */
  method ScanBreaks(breaks: seq<int>, year: int) returns (leap: bool)
    requires |breaks| >= 2
    ensures leap == LeapOver(breaks, year)
  {
    var jp := breaks[0];
    var jump := 0;
    var j := 1;
    while j < |breaks|
      invariant 1 <= j <= |breaks|
      invariant jp == breaks[j - 1]
      invariant j > 1 ==> jump == breaks[j - 1] - breaks[j - 2]
      invariant StopIndex(breaks, year, 1) == StopIndex(breaks, year, j)
      decreases |breaks| - j
    {
      var jm := breaks[j];
      jump := jm - jp;
      if year < jm {
        break;
      }
      jp := jm;
      j := j + 1;
    }
    leap := LeapAfterScan(year, jp, jump);
  }

  /** `isLeapYear`. */
  method IsLeapYear(year: int) returns (leap: bool)
    ensures leap == LeapAsWritten(year)
  {
    leap := ScanBreaks(Breaks, year);
  }

  /** Past the last entry of the table the scan runs to its end. */
  lemma {:induction false} ScanRunsOut(breaks: seq<int>, year: int, j: nat)
    requires j <= |breaks|
    requires forall i :: j <= i < |breaks| ==> breaks[i] <= year
    ensures StopIndex(breaks, year, j) == |breaks|
    decreases |breaks| - j
  {
    if j < |breaks| {
      ScanRunsOut(breaks, year, j + 1);
    }
  }

  /** As written, the leap years come in a block of thirty in a row: every
      year from 1329 to 1358 is leap, and none from 1359 to 1456. */
  lemma LeapYearsInABlock(year: int)
    ensures 1329 <= year <= 1358 ==> LeapAsWritten(year)
    ensures 1359 <= year <= 1456 ==> !LeapAsWritten(year)
  {
    if 1329 <= year <= 1456 {
      FifteenthCycle(year + 591);
    }
  }

  /** In the cycle of 128 that starts at 15 * 128, the residue is the offset. */
  lemma FifteenthCycle(x: int)
    requires 1920 <= x < 2048
    ensures x % 128 == x - 1920
  {
    assert x == 128 * 15 + (x - 1920);
  }

  /** The 33-year arithmetic rule for the Persian calendar: eight leap
      years in every cycle of thirty-three, never two in a row. */
  function IsLeap(year: int): bool
  {
    (25 * year + 11) % 33 < 8
  }

  lemma LeapYearsApart(year: int)
    ensures IsLeap(year) ==> !IsLeap(year + 1)
  {
    assert 25 * (year + 1) + 11 == (25 * year + 11) + 25;
  }

  lemma LeapPeriodic(year: int)
    ensures IsLeap(year + 33) == IsLeap(year)
  {
    var a := 25 * year + 11;
    var q := a / 33;
    var r := a % 33;
    assert a == 33 * q + r;
    assert 25 * (year + 33) + 11 == 33 * (q + 25) + r;
  }

  /** `getDaysInMonth`: 31 days up to month 6, 30 up to month 11, and 30 or
      29 for month 12 by the leap rule given. */
  function DaysInMonth(month: int, leap: bool): (d: int)
    ensures month <= 6 ==> d == 31
    ensures 7 <= month <= 11 ==> d == 30
    ensures month >= 12 ==> d == (if leap then 30 else 29)
  {
    if month <= 6 then 31 else if month <= 11 then 30 else if leap then 30 else 29
  }

  /** A year has 366 days when its twelfth month is long, else 365. */
  lemma YearLength(leap: bool)
    ensures MonthOffset(12) + DaysInMonth(12, leap) == (if leap then 366 else 365)
  {
  }

  /** `monthOffset` of `persianToGregorian`: the days before the month. */
  function MonthOffset(month: int): int
  {
    if month <= 6 then (month - 1) * 31 else 186 + (month - 7) * 30
  }

  /** Consecutive offsets differ by the earlier month's length. */
  lemma OffsetsFollowMonthLengths(month: int, leap: bool)
    requires 1 <= month <= 11
    ensures MonthOffset(month + 1) - MonthOffset(month) == DaysInMonth(month, leap)
  {
  }

  /** `dayOfYear`: zero-based. */
  function DayOfYear(month: int, day: int): int
  {
    MonthOffset(month) + day - 1
  }

  predicate ValidDate(month: int, day: int, leap: bool)
  {
    1 <= month <= 12 && 1 <= day <= DaysInMonth(month, leap)
  }

  /** Valid dates map into the year, in calendar order, without collisions. */
  lemma DayOfYearOrdered(m1: int, d1: int, m2: int, d2: int, leap: bool)
    requires ValidDate(m1, d1, leap) && ValidDate(m2, d2, leap)
    ensures 0 <= DayOfYear(m1, d1) < (if leap then 366 else 365)
    ensures DayOfYear(m1, d1) < DayOfYear(m2, d2) <==> m1 < m2 || (m1 == m2 && d1 < d2)
  {
    if m1 < m2 {
      OffsetGap(m1, m2, leap);
    } else if m2 < m1 {
      OffsetGap(m2, m1, leap);
    }
  }

  lemma OffsetGap(a: int, b: int, leap: bool)
    requires 1 <= a < b <= 12
    ensures MonthOffset(b) >= MonthOffset(a) + DaysInMonth(a, leap)
  {
  }

  /** `handleMonthChange` on (year, month). */
  datatype Direction = Prev | Next

  function MonthChange(year: int, month: int, dir: Direction): (r: (int, int))
    ensures dir == Prev && month == 1 ==> r == (year - 1, 12)
    ensures dir == Prev && month != 1 ==> r == (year, month - 1)
    ensures dir == Next && month == 12 ==> r == (year + 1, 1)
    ensures dir == Next && month != 12 ==> r == (year, month + 1)
  {
    match dir
    case Prev => if month == 1 then (year - 1, 12) else (year, month - 1)
    case Next => if month == 12 then (year + 1, 1) else (year, month + 1)
  }

  /** Navigation keeps the month in 1 to 12, moves the year only across the
      year boundary, and each direction undoes the other. */
  lemma MonthChangeInverse(year: int, month: int)
    requires 1 <= month <= 12
    ensures var n := MonthChange(year, month, Next);
            1 <= n.1 <= 12 && MonthChange(n.0, n.1, Prev) == (year, month)
    ensures var p := MonthChange(year, month, Prev);
            1 <= p.1 <= 12 && MonthChange(p.0, p.1, Next) == (year, month)
  {
  }

  /** Twelve steps forward reach the same month of the next year. */
  lemma {:induction false} TwelveStepsAYear(year: int, month: int, k: nat)
    requires 1 <= month <= 12 && k <= 12
    ensures Steps(year, month, k) == (if month + k <= 12 then (year, month + k) else (year + 1, month + k - 12))
  {
    if k > 0 {
      TwelveStepsAYear(year, month, k - 1);
    }
  }

  function Steps(year: int, month: int, k: nat): (int, int)
  {
    if k == 0 then (year, month)
    else
      var p := Steps(year, month, k - 1);
      MonthChange(p.0, p.1, Next)
  }

  /** The picker's selected year and month. */
  class DatePicker {
    var selectedYear: int
    var selectedMonth: int

    constructor(year: int, month: int)
      ensures selectedYear == year && selectedMonth == month
    {
      selectedYear := year;
      selectedMonth := month;
    }

    method HandleMonthChange(dir: Direction)
      modifies this
      ensures (selectedYear, selectedMonth) == MonthChange(old(selectedYear), old(selectedMonth), dir)
    {
      if dir == Prev {
        if selectedMonth == 1 {
          selectedMonth := 12;
          selectedYear := selectedYear - 1;
        } else {
          selectedMonth := selectedMonth - 1;
        }
      } else {
        if selectedMonth == 12 {
          selectedMonth := 1;
          selectedYear := selectedYear + 1;
        } else {
          selectedMonth := selectedMonth + 1;
        }
      }
    }

    /** `getDaysInMonth` of the selected month, with the leap scan as written. */
    method DaysInSelectedMonth() returns (d: int)
      ensures d == DaysInMonth(selectedMonth, LeapAsWritten(selectedYear))
    {
      var leap := IsLeapYear(selectedYear);
      d := DaysInMonth(selectedMonth, leap);
    }
  }
}
