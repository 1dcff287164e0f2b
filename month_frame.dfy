/**
 * Month framing (`getCurrentMonthData`): from a reference date, the current
 * month's name, the previous month, its name and its "YYYY-MM" key.
 * The reference date is a parameter instead of the wall clock, and month
 * names come from a fixed English table instead of the locale.
 */
module MonthFrame {
  import opened Format

  const MonthNames: seq<string> := [
    "January", "February", "March", "April", "May", "June",
    "July", "August", "September", "October", "November", "December"]

  /** A zero-based month number, as `Date.prototype.getMonth` returns it. */
  type MonthIndex = m: int | 0 <= m < 12

  datatype YearMonth = YearMonth(year: int, month: MonthIndex)

  function MonthName(m: MonthIndex): string { MonthNames[m] }

  /** Months counted from year 0, so that consecutive months differ by one. */
  function MonthOrdinal(ym: YearMonth): int { 12 * ym.year + ym.month }

  /**
   * The year the JavaScript constructor `new Date(year, month, day)` actually
   * uses: a year from 0 to 99 stands for 1900 to 1999.
   */
  function ConstructorYear(year: int): (y: int)
    ensures (y == year) <==> !(0 <= year <= 99)
    ensures 0 <= year <= 99 ==> 1900 <= y <= 1999 && y % 100 == year
  {
    if 0 <= year <= 99 then 1900 + year else year
  }

  /** `new Date(year, month - 1, 1)`: the month before, in the constructor's year. */
  function PrevMonth(now: YearMonth): (p: YearMonth)
    ensures MonthOrdinal(p) == MonthOrdinal(YearMonth(ConstructorYear(now.year), now.month)) - 1
  {
    var year := ConstructorYear(now.year);
    if now.month == 0 then YearMonth(year - 1, 11) else YearMonth(year, now.month - 1)
  }

  /** A month is determined by its ordinal. */
  lemma MonthOrdinalInjective(a: YearMonth, b: YearMonth)
    ensures MonthOrdinal(a) == MonthOrdinal(b) ==> a == b
  {
  }

  /**
   * Outside the two-digit years the previous month is the calendar one:
   * December of the year before for January, otherwise the month before.
   */
  lemma PrevMonthIsCalendarPrevious(now: YearMonth)
    requires now.year < 0 || now.year > 99
    ensures now.month == 0 ==> PrevMonth(now) == YearMonth(now.year - 1, 11)
    ensures now.month != 0 ==> PrevMonth(now) == YearMonth(now.year, now.month - 1)
  {
    var p := PrevMonth(now);
    if now.month == 0 {
      MonthOrdinalInjective(p, YearMonth(now.year - 1, 11));
    } else {
      MonthOrdinalInjective(p, YearMonth(now.year, now.month - 1));
    }
  }

  /** In a two-digit year the previous month falls in 1899 to 1999 (December 1899 for January of year 0). */
  lemma PrevMonthOfTwoDigitYear(now: YearMonth)
    requires 0 <= now.year <= 99
    ensures 1899 <= PrevMonth(now).year <= 1999
    ensures PrevMonth(now).year == 1900 + now.year - (if now.month == 0 then 1 else 0)
  {
  }

  /** `${year}-${String(month + 1).padStart(2, '0')}`. */
  function MonthKey(ym: YearMonth): string
  {
    IntToString(ym.year) + "-" + PadStart(IntToString(ym.month + 1), 2, '0')
  }

  /**
   * A month key is the year's digits, a dash, and two digits that read as
   * the one-based month number, so from "01" to "12".
   */
  lemma {:induction false} MonthKeyShape(ym: YearMonth)
    ensures var k := MonthKey(ym);
      && |k| >= 4
      && k[..|k| - 3] == IntToString(ym.year)
      && k[|k| - 3] == '-'
      && IsDigit(k[|k| - 2]) && IsDigit(k[|k| - 1])
      && 10 * DigitValue(k[|k| - 2]) + DigitValue(k[|k| - 1]) == ym.month + 1
  {
    var n := ym.month + 1;
    var digits := PadStart(IntToString(n), 2, '0');
    if n < 10 {
      assert IntToString(n) == [DigitChar(n)];
      assert digits == ['0', DigitChar(n)];
    } else {
      assert NatToString(n / 10) == ['1'];
      assert IntToString(n) == ['1', DigitChar(n % 10)];
      assert digits == ['1', DigitChar(n % 10)];
    }
    var k := MonthKey(ym);
    assert k == IntToString(ym.year) + "-" + digits;
    assert k[..|k| - 3] == IntToString(ym.year);
  }

  /** Different months never share a key. */
  lemma MonthKeyInjective(a: YearMonth, b: YearMonth)
    ensures MonthKey(a) == MonthKey(b) ==> a == b
  {
    if MonthKey(a) == MonthKey(b) {
      MonthKeyShape(a);
      MonthKeyShape(b);
      IntToStringInjective(a.year, b.year);
    }
  }

  /** What `getCurrentMonthData` returns. */
  datatype MonthData = MonthData(
    currentMonth: string,
    currentYear: int,
    prevMonthName: string,
    prevMonthYear: int,
    prevMonthKey: string)

  function CurrentMonthData(now: YearMonth): (d: MonthData)
    ensures d.currentMonth == MonthNames[now.month]
    ensures d.prevMonthName == MonthNames[(now.month + 11) % 12]
    ensures d.prevMonthKey == MonthKey(YearMonth(d.prevMonthYear, (now.month + 11) % 12))
    ensures 12 * d.prevMonthYear + (now.month + 11) % 12
         == 12 * ConstructorYear(now.year) + now.month - 1
  {
    var p := PrevMonth(now);
    assert p.month == (now.month + 11) % 12;
    MonthData(MonthName(now.month), now.year, MonthName(p.month), p.year, MonthKey(p))
  }
}
