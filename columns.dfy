/**
 * The utilisation lookups and the text of the table's percentage and
 * currency columns.
 */
module Columns {
  import opened Wrappers
  import opened Format
  import opened Records
  import opened Lookup

  /** `utilization?.lastThreeMonthsIndividually || []`. */
  function LastThreeMonths(u: Option<WorkforceUtilisation>): (entries: seq<MonthUtilisation>)
    ensures u.Some? && u.value.lastThreeMonthsIndividually.Some? ==> entries == u.value.lastThreeMonthsIndividually.value
    ensures u.None? || u.value.lastThreeMonthsIndividually.None? ==> entries == []
  {
    match u
    case None => []
    case Some(w) =>
      match w.lastThreeMonthsIndividually
      case None => []
      case Some(entries) => entries
  }

  /** The key `find` compares: an entry's month name. */
  function EntryMonth(m: MonthUtilisation): string { m.month }

  /** `entries.find(m => m.month === name)?.utilisationRate`, when it is truthy. */
  function MonthRate(entries: seq<MonthUtilisation>, name: string): Option<real>
  {
    match Find(entries, EntryMonth, name)
    case None => None
    case Some(m) => m.utilisationRate
  }

  /**
   * A month's rate is that of its first entry; it is falsy exactly when
   * there is no entry for the month or the first one is blank.
   */
  lemma MonthRateOfFirstEntry(entries: seq<MonthUtilisation>, name: string)
    ensures forall i :: IsFirstMatch(entries, EntryMonth, name, i)
              ==> MonthRate(entries, name) == entries[i].utilisationRate
    ensures MonthRate(entries, name).None? <==>
      || NoMatch(entries, EntryMonth, name)
      || exists i :: IsFirstMatch(entries, EntryMonth, name, i) && entries[i].utilisationRate.None?
  {
    FindFirstMatch(entries, EntryMonth, name);
    if Find(entries, EntryMonth, name).Some? {
      FindIsFirst(entries, EntryMonth, name);
    }
  }

  /** `parseFloat(prevMonthUtil || '0')`: the previous month's rate, or zero. */
  function PrevMonthUtil(entries: seq<MonthUtilisation>, prevMonthName: string): real
  {
    match MonthRate(entries, prevMonthName)
    case None => 0.0
    case Some(x) => x
  }

  /** The previous month's utilisation is the rate of its first entry, zero when that is falsy. */
  lemma PrevMonthUtilOfFirstEntry(entries: seq<MonthUtilisation>, prevMonthName: string)
    ensures forall i :: IsFirstMatch(entries, EntryMonth, prevMonthName, i) && entries[i].utilisationRate.Some?
              ==> PrevMonthUtil(entries, prevMonthName) == entries[i].utilisationRate.value
    ensures MonthRate(entries, prevMonthName).None? ==> PrevMonthUtil(entries, prevMonthName) == 0.0
    ensures NoMatch(entries, EntryMonth, prevMonthName) ==> PrevMonthUtil(entries, prevMonthName) == 0.0
  {
    MonthRateOfFirstEntry(entries, prevMonthName);
  }

  /** `${Math.round(rate * 100)}%`. */
  function PercentText(rate: real): (s: string)
    ensures |s| >= 2 && s[|s| - 1] == '%'
  {
    IntToString(Round(rate * 100.0)) + "%"
  }

  /** A percentage reads back as the integer nearest to a hundred times the rate. */
  lemma PercentTextReadsBack(rate: real)
    ensures var s := PercentText(rate);
      && |s| >= 2 && s[|s| - 1] == '%'
      && exists n: int :: ParseInt(s[..|s| - 1]) == Some(n)
           && n as real - 0.5 <= rate * 100.0 < n as real + 0.5
  {
    var n := Round(rate * 100.0);
    var s := PercentText(rate);
    assert s[..|s| - 1] == IntToString(n);
    IntToStringRoundTrip(n);
  }

  /** A percentage column that shows "0%" when its rate is falsy. */
  function RateCell(rate: Option<real>): (s: string)
    ensures rate.None? ==> s == "0%"
    ensures rate.Some? ==> s == PercentText(rate.value)
  {
    match rate
    case None => "0%"
    case Some(x) => PercentText(x)
  }

  /** The June or July column: a month fixed by name. */
  function FixedMonthCell(entries: seq<MonthUtilisation>, name: string): string
  {
    RateCell(MonthRate(entries, name))
  }

  /** The June and July columns show "0%" unless the first entry's rate is truthy. */
  lemma FixedMonthCellDefaults(entries: seq<MonthUtilisation>, name: string)
    ensures NoMatch(entries, EntryMonth, name) ==> FixedMonthCell(entries, name) == "0%"
    ensures forall i :: IsFirstMatch(entries, EntryMonth, name, i) && entries[i].utilisationRate.None?
              ==> FixedMonthCell(entries, name) == "0%"
    ensures forall i :: IsFirstMatch(entries, EntryMonth, name, i) && entries[i].utilisationRate.Some?
              ==> FixedMonthCell(entries, name) == PercentText(entries[i].utilisationRate.value)
  {
    MonthRateOfFirstEntry(entries, name);
  }

  /**
   * The May column tests for the entry, not for its rate: no entry shows
   * "...", and an entry with a blank rate shows "NaN%", since
   * `parseFloat('')` is NaN.
   */
  function MayCell(entries: seq<MonthUtilisation>): (s: string)
    ensures s == "..." <==> Find(entries, EntryMonth, "May").None?
  {
    match Find(entries, EntryMonth, "May")
    case None => "..."
    case Some(m) =>
      match m.utilisationRate
      case None => "NaN%"
      case Some(x) => PercentText(x)
  }

  lemma MayCellDefaults(entries: seq<MonthUtilisation>)
    ensures NoMatch(entries, EntryMonth, "May") ==> MayCell(entries) == "..."
    ensures forall i :: IsFirstMatch(entries, EntryMonth, "May", i) && entries[i].utilisationRate.None?
              ==> MayCell(entries) == "NaN%"
    ensures forall i :: IsFirstMatch(entries, EntryMonth, "May", i) && entries[i].utilisationRate.Some?
              ==> MayCell(entries) == PercentText(entries[i].utilisationRate.value)
  {
    FindFirstMatch(entries, EntryMonth, "May");
  }

  /**
   * Absence is shown asymmetrically: with no entry for May, June or July,
   * the May column says "..." where June and July say "0%".
   */
  lemma AsymmetricDefaults(entries: seq<MonthUtilisation>)
    requires NoMatch(entries, EntryMonth, "May")
    requires NoMatch(entries, EntryMonth, "June") && NoMatch(entries, EntryMonth, "July")
    ensures MayCell(entries) == "..." && FixedMonthCell(entries, "June") == "0%"
    ensures FixedMonthCell(entries, "July") == "0%" && MayCell(entries) != FixedMonthCell(entries, "June")
  {
    MayCellDefaults(entries);
    FixedMonthCellDefaults(entries, "June");
    FixedMonthCellDefaults(entries, "July");
  }

  /** `${amount} EUR`. */
  function EurText(amount: int): (s: string)
    ensures |s| >= 5 && s[|s| - 4..] == " EUR"
  {
    IntToString(amount) + " EUR"
  }

  /** An amount reads back from its text, which ends in " EUR". */
  lemma EurTextReadsBack(amount: int)
    ensures var s := EurText(amount);
      |s| >= 5 && s[|s| - 4..] == " EUR" && ParseInt(s[..|s| - 4]) == Some(amount)
  {
    var s := EurText(amount);
    assert s[..|s| - 4] == IntToString(amount);
    IntToStringRoundTrip(amount);
  }

  lemma ZeroEur()
    ensures EurText(0) == "0 EUR"
  {
    assert IntToString(0) == "0";
  }
}
