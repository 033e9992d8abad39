/**
 ngx_gmtime of src/core/ngx_times.c, lines 299-389: the date of a time by Gauss' formula,
 against a calendar that counts days year by year and month by month.
 */
module GmTime {

  datatype Tm = Tm(sec: int, min: int, hour: int, mday: int, mon: int, year: int, wday: int)

  // ----- the calendar -----

  predicate Leap(y: int) { y % 4 == 0 && (y % 100 != 0 || y % 400 == 0) }

  function YearDays(y: int): int { if Leap(y) then 366 else 365 }

  function MonthDays(y: int, m: int): int {
    if m == 2 then if Leap(y) then 29 else 28
    else if m == 4 || m == 6 || m == 9 || m == 11 then 30 else 31
  }

  /** Days from January 1, 1970 to January 1 of year y. */
  function DaysToYear(y: int): int
    requires y >= 1970
  {
    if y == 1970 then 0 else DaysToYear(y - 1) + YearDays(y - 1)
  }

  /** Days of year y before month m. */
  function DaysToMonth(y: int, m: int): int
    requires 1 <= m <= 13
  {
    if m == 1 then 0 else DaysToMonth(y, m - 1) + MonthDays(y, m - 1)
  }

  /** The weekday moves on by one each day; January 1, 1970 was a Thursday. */
  function Weekday(day: nat): int { if day == 0 then 4 else (Weekday(day - 1) + 1) % 7 }

  ghost predicate IsDate(tm: Tm) {
    && tm.year >= 1970 && 1 <= tm.mon <= 12 && 1 <= tm.mday <= MonthDays(tm.year, tm.mon)
    && 0 <= tm.hour < 24 && 0 <= tm.min < 60 && 0 <= tm.sec < 60
  }

  /** Days since January 1, 1970. */
  function DayOf(tm: Tm): int
    requires tm.year >= 1970 && 1 <= tm.mon <= 12
  {
    DaysToYear(tm.year) + DaysToMonth(tm.year, tm.mon) + tm.mday - 1
  }

  function TimeOf(tm: Tm): int
    requires tm.year >= 1970 && 1 <= tm.mon <= 12
  {
    DayOf(tm) * 86400 + tm.hour * 3600 + tm.min * 60 + tm.sec
  }

  // ----- years from March to February -----

  /** Days from March 1, 1 BC to March 1 of year y. */
  function DaysToMarch(y: nat): int { 365 * y + y / 4 - y / 100 + y / 400 }

  lemma MarchYear(y: nat)
    ensures DaysToMarch(y + 1) == DaysToMarch(y) + YearDays(y + 1)
  {
    Carry(y, 4);
    Carry(y, 100);
    Carry(y, 400);
    Fourhundred(y + 1);
    Hundred(y + 1);
    assert DaysToMarch(y + 1) - DaysToMarch(y) 
        == 365 + ((y + 1) / 4 - y / 4) - ((y + 1) / 100 - y / 100) + ((y + 1) / 400 - y / 400);
  }

  lemma HundredTimes(k: nat)
    ensures 100 * k % 100 == 0
  {
  }

  lemma Fourhundred(x: nat)
    ensures x % 400 == 0 ==> x % 100 == 0
  {
    if x % 400 == 0 {
      var k := 4 * (x / 400);
      assert x == 100 * k;
      HundredTimes(k);
    }
  }

  lemma FourTimes(k: nat)
    ensures 4 * k % 4 == 0
  {
  }

  lemma Hundred(x: nat)
    ensures x % 100 == 0 ==> x % 4 == 0
  {
    if x % 100 == 0 {
      var k := 25 * (x / 100);
      assert x == 4 * k;
      FourTimes(k);
    }
  }

  lemma Carry(y: nat, k: nat)
    requires k == 4 || k == 100 || k == 400
    ensures (y + 1) / k == y / k + if (y + 1) % k == 0 then 1 else 0
  {
  }

  /** A date before March belongs to the March year that began the year before. */
  lemma {:induction false} JanuaryIs(y: int)
    requires y >= 1970
    ensures DaysToYear(y) == DaysToMarch(y - 1) + 306 - 719468
  {
    if y > 1970 {
      JanuaryIs(y - 1);
      MarchYear(y - 2);
    }
  }

  /** The estimate of the March year is right or one too much. */
  lemma YearEstimate(days: nat, year: nat)
    requires year == (days + 2) * 400 / 146097 && year > 0
    ensures DaysToMarch(year - 1) <= days < DaysToMarch(year + 1)
  {
    assert 146097 * year <= (days + 2) * 400 < 146097 * (year + 1);
    Floors(year + 1);
    Floors(year - 1);
  }

  lemma Floors(y: nat)
    ensures 146097 * y - 700 < 400 * DaysToMarch(y) < 146097 * y + 400
  {
    assert y - 3 <= 4 * (y / 4) <= y && y - 99 <= 100 * (y / 100) <= y && y - 399 <= 400 * (y / 400) <= y;
  }

  // ----- months from March on -----

  /** Days of a March year before its month m; 1 is March, 12 is February. */
  function DaysInto(m: int): int { 367 * m / 12 - 30 }

  lemma MonthFormula(yday: int)
    requires 0 <= yday <= 365
    ensures var m := (yday + 31) * 10 / 306;
            1 <= m <= 12 && DaysInto(m) <= yday && (m < 12 ==> yday < DaysInto(m + 1)) && (m >= 11 <==> yday >= 306)
  {
    var m := (yday + 31) * 10 / 306;
    assert 306 * m <= (yday + 31) * 10 < 306 * (m + 1);
    assert 1 <= m <= 12;
    Table();
  }

  lemma Table()
    ensures DaysInto(1) == 0 && DaysInto(2) == 31 && DaysInto(3) == 61 && DaysInto(4) == 92 && DaysInto(5) == 122 &&
            DaysInto(6) == 153
    ensures DaysInto(7) == 184 && DaysInto(8) == 214 && DaysInto(9) == 245 && DaysInto(10) == 275 &&
            DaysInto(11) == 306 && DaysInto(12) == 337
  {
  }

  /** The calendar's months against the formula's. */
  lemma MonthStarts(y: int, m: int)
    requires 1 <= m <= 12
    ensures m <= 10 ==>
      && DaysToMonth(y, m + 2) == YearDays(y) - 306 + DaysInto(m)
      && MonthDays(y, m + 2) == (if m == 10 then 31 else DaysInto(m + 1) - DaysInto(m))
    ensures m == 11 ==> DaysToMonth(y, 1) == 0 && MonthDays(y, 1) == 31
    ensures m == 12 ==> DaysToMonth(y, 2) == 31 && MonthDays(y, 2) == YearDays(y) - 337
  {
    Table();
    Months(y);
  }

  lemma Months(y: int)
    ensures var f := if Leap(y) then 29 else 28;
      && DaysToMonth(y, 1) == 0 && DaysToMonth(y, 2) == 31 && DaysToMonth(y, 3) == 31 + f && DaysToMonth(y, 4) == 62 + f
      && DaysToMonth(y, 5) == 92 + f && DaysToMonth(y, 6) == 123 + f && DaysToMonth(y, 7) == 153 + f &&
         DaysToMonth(y, 8) == 184 + f
      && DaysToMonth(y, 9) == 215 + f && DaysToMonth(y, 10) == 245 + f && DaysToMonth(y, 11) == 276 + f &&
         DaysToMonth(y, 12) == 306 + f
  {
    assert DaysToMonth(y, 2) == 31;
    assert DaysToMonth(y, 4) == DaysToMonth(y, 3) + 31;
    assert DaysToMonth(y, 6) == DaysToMonth(y, 5) + 31;
    assert DaysToMonth(y, 8) == DaysToMonth(y, 7) + 31;
    assert DaysToMonth(y, 10) == DaysToMonth(y, 9) + 30;
    assert DaysToMonth(y, 12) == DaysToMonth(y, 11) + 30;
  }

  lemma {:induction false} WeekdayIs(day: nat)
    ensures Weekday(day) == (4 + day) % 7
  {
    if day > 0 {
      WeekdayIs(day - 1);
      var q, r := (3 + day) / 7, (3 + day) % 7;
      assert 4 + day == 7 * q + (r + 1);
      assert r == 6 ==> 4 + day == 7 * (q + 1);
    }
  }

  /** Lines 315-319 */
  method Clock(s: nat) returns (hour: nat, min: nat, sec: nat)
    requires s < 86400
    ensures hour < 24 && min < 60 && sec < 60 && s == hour * 3600 + min * 60 + sec
  {
    var n := s;
    hour := n / 3600;
    n := n % 3600;
    min := n / 60;
    sec := n % 60;
  }

  /** Lines 336-344: the March year and the day in it. */
  method MarchDate(days: nat) returns (year: int, yday: int)
    requires days >= 719468
    ensures year >= 0 && days == DaysToMarch(year) + yday && 0 <= yday < YearDays(year + 1)
  {
    year := (days + 2) * 400 / (365 * 400 + 100 - 4 + 1);
    MarchDay(days, year);
    yday := days - (365 * year + year / 4 - year / 100 + year / 400);
    if yday < 0 {
      var leap := if year % 4 == 0 && (year % 100 != 0 || year % 400 == 0) then 1 else 0;
      yday := 365 + leap + yday;
      year := year - 1;
    }
  }

  /** ngx_gmtime */
  method GmTime(t: nat) returns (tp: Tm)
    ensures IsDate(tp) && TimeOf(tp) == t && tp.wday == Weekday(DayOf(tp))
  {
    var n := t;
    assert n == n / 86400 * 86400 + n % 86400;
    var days: int := n / 86400;
    ghost var day: nat := days;
    WeekdayIs(days);
    var wday := (4 + days) % 7;
    var hour, min, sec := Clock(n % 86400);
    days := days - (31 + 28) + 719527;
    var year, yday := MarchDate(days);
    var mon := (yday + 31) * 10 / 306;
    var mday := yday - (367 * mon / 12 - 30) + 1;
    DateIs(day, year, yday, mon, mday);
    if yday >= 306 {
      year := year + 1;
      mon := mon - 10;
    } else {
      mon := mon + 2;
    }
    tp := Tm(sec, min, hour, mday, mon, year, wday);
  }

  /** The day of the March year, with the correction of lines 340-344. */
  lemma MarchDay(days: nat, year: nat)
    requires days >= 719468 && year == (days + 2) * 400 / 146097
    ensures year > 0
    ensures var yday := days - DaysToMarch(year);
      if yday < 0 then 0 <= yday + YearDays(year) && days == DaysToMarch(year - 1) + yday + YearDays(year)
      else yday < YearDays(year + 1)
  {
    YearEstimate(days, year);
    MarchYear(year);
    MarchYear(year - 1);
  }

  /** From the March year to the calendar date. */
  lemma DateIs(day: nat, year: nat, yday: int, mon: int, mday: int)
    requires day + 719468 == DaysToMarch(year) + yday && 0 <= yday < YearDays(year + 1)
    requires mon == (yday + 31) * 10 / 306 && mday == yday - DaysInto(mon) + 1
    ensures var y := if yday >= 306 then year + 1 else year; var m := if yday >= 306 then mon - 10 else mon + 2;
      y >= 1970 && 1 <= m <= 12 && 1 <= mday <= MonthDays(y, m) && day == DaysToYear(y) + DaysToMonth(y, m) + mday - 1
  {
    MonthFormula(yday);
    EarlyYears(year, yday);
    if yday >= 306 {
      JanuaryIs(year + 1);
      MonthStarts(year + 1, mon);
    } else {
      JanuaryIs(year);
      MarchYear(year - 1);
      MonthStarts(year, mon);
    }
    Table();
  }

  lemma EarlyYears(year: nat, yday: int)
    requires DaysToMarch(year) + yday >= 719468 && 0 <= yday < 366
    ensures year >= 1969 && (yday < 306 ==> year >= 1970)
  {
    Floors(year);
  }

  // ----- the date is unique -----

  lemma {:induction false} LaterYear(y: int, z: int)
    requires 1970 <= y < z
    ensures DaysToYear(y) + YearDays(y) <= DaysToYear(z)
    decreases z
  {
    if y + 1 < z { LaterYear(y, z - 1); }
  }

  lemma {:induction false} LaterMonth(y: int, m: int, k: int)
    requires 1 <= m < k <= 13
    ensures DaysToMonth(y, m) + MonthDays(y, m) <= DaysToMonth(y, k)
    decreases k
  {
    if m + 1 < k { LaterMonth(y, m, k - 1); }
  }

  lemma DayOrder(a: Tm, b: Tm)
    requires IsDate(a) && IsDate(b) && (a.year < b.year || (a.year == b.year && a.mon < b.mon))
    ensures DayOf(a) < DayOf(b)
  {
    LaterMonth(a.year, a.mon, 13);
    Months(a.year);
    assert DaysToMonth(a.year, 13) == YearDays(a.year);
    if a.year < b.year {
      LaterYear(a.year, b.year);
      if b.mon > 1 { LaterMonth(b.year, 1, b.mon); }
    } else {
      LaterMonth(a.year, a.mon, b.mon);
    }
  }

  /** No other date and time has the same time_t. */
  lemma DateUnique(a: Tm, b: Tm)
    requires IsDate(a) && IsDate(b) && TimeOf(a) == TimeOf(b)
    ensures a == b.(wday := a.wday)
  {
    assert DayOf(a) == DayOf(b);
    if a.year < b.year || (a.year == b.year && a.mon < b.mon) { DayOrder(a, b); }
    if b.year < a.year || (a.year == b.year && b.mon < a.mon) { DayOrder(b, a); }
  }
}
