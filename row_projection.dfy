/**
 * The body of the reduce callback: from one source item and the month
 * data to the display row it contributes, or to nothing.
 */
module RowProjection {
  import opened Wrappers
  import opened Records
  import opened MonthFrame
  import opened Columns
  import opened Earnings

  /** The fields the row reads from whichever slot supplies the person. */
  datatype Person = Person(name: string, status: string, workforceUtilisation: Option<WorkforceUtilisation>)

  /** `dataRow?.employees || dataRow?.externals`: the employee slot first. */
  function SelectPerson(r: SourceRecord): (p: Option<Person>)
    ensures p.None? <==> r.employees.None? && r.externals.None?
    ensures r.employees.Some? ==>
              var e := r.employees.value;
              p == Some(Person(e.name, e.status, e.workforceUtilisation))
    ensures r.employees.None? && r.externals.Some? ==>
              var x := r.externals.value;
              p == Some(Person(x.name, x.status, x.workforceUtilisation))
  {
    match r.employees
    case Some(e) => Some(Person(e.name, e.status, e.workforceUtilisation))
    case None =>
      match r.externals
      case None => None
      case Some(x) => Some(Person(x.name, x.status, x.workforceUtilisation))
  }

  /** An item yields a row when it has a person whose status is "active". */
  predicate Active(r: SourceRecord)
  {
    SelectPerson(r).Some? && SelectPerson(r).value.status == "active"
  }

  /** The row of an active item; nothing for any other item. */
  function ProjectRecord(r: SourceRecord, d: MonthData): (row: Option<DisplayRow>)
    ensures row.Some? <==> Active(r)
  {
    match SelectPerson(r)
    case None => None
    case Some(p) =>
      if p.status != "active" then None
      else
        var u := p.workforceUtilisation;
        var entries := LastThreeMonths(u);
        var prevMonthUtil := PrevMonthUtil(entries, d.prevMonthName);
        Some(DisplayRow(
          p.name,
          RateCell(if u.Some? then u.value.utilisationRateLastTwelveMonths else None),
          RateCell(if u.Some? then u.value.utilisationRateYearToDate else None),
          MayCell(entries),
          FixedMonthCell(entries, "June"),
          FixedMonthCell(entries, "July"),
          EurText(PrevMonthEarnings(r, prevMonthUtil, d.prevMonthKey))))
  }

  /**
   * The columns of an active item's row: the person's name, the two
   * summary rates ("0%" when falsy), the three month columns of the
   * person's last-three-months entries, and the previous month's earnings.
   */
  lemma RowColumns(r: SourceRecord, d: MonthData)
    requires Active(r)
    ensures var p := SelectPerson(r).value;
      var row := ProjectRecord(r, d).value;
      var entries := LastThreeMonths(p.workforceUtilisation);
      && row.person == p.name
      && (p.workforceUtilisation.None? ==> row.past12Months == "0%" && row.y2d == "0%")
      && (p.workforceUtilisation.Some? ==>
            row.past12Months == RateCell(p.workforceUtilisation.value.utilisationRateLastTwelveMonths)
            && row.y2d == RateCell(p.workforceUtilisation.value.utilisationRateYearToDate))
      && row.may == MayCell(entries)
      && row.june == FixedMonthCell(entries, "June")
      && row.july == FixedMonthCell(entries, "July")
      && row.netEarningsPrevMonth == EurText(PrevMonthEarnings(r, PrevMonthUtil(entries, d.prevMonthName), d.prevMonthKey))
  {
  }

  /** The row the source builds, with its earnings computed by the imperative step. */
  method BuildRow(r: SourceRecord, d: MonthData) returns (row: Option<DisplayRow>)
    ensures row == ProjectRecord(r, d)
  {
    var person := SelectPerson(r);
    if person.None? || person.value.status != "active" {
      return None;
    }
    var utilization := person.value.workforceUtilisation;
    var lastThreeMonths := LastThreeMonths(utilization);
    var prevMonthUtil := PrevMonthUtil(lastThreeMonths, d.prevMonthName);
    var netEarnings := ComputeNetEarnings(r, prevMonthUtil, d.prevMonthKey);
    row := Some(DisplayRow(
      person.value.name,
      RateCell(if utilization.Some? then utilization.value.utilisationRateLastTwelveMonths else None),
      RateCell(if utilization.Some? then utilization.value.utilisationRateYearToDate else None),
      MayCell(lastThreeMonths),
      FixedMonthCell(lastThreeMonths, "June"),
      FixedMonthCell(lastThreeMonths, "July"),
      netEarnings));
  }

  /**
   * When both slots are filled, the external slot plays no part: the row
   * is the one the employee alone would give.
   */
  lemma EmployeeSlotWins(e: Employee, x: External, d: MonthData)
    ensures ProjectRecord(SourceRecord(Some(e), Some(x)), d) == ProjectRecord(SourceRecord(Some(e), None), d)
  {
  }

  /** An inactive employee hides an active external in the same item. */
  lemma InactiveEmployeeHidesExternal(e: Employee, x: External, d: MonthData)
    requires e.status != "active"
    ensures ProjectRecord(SourceRecord(Some(e), Some(x)), d).None?
  {
  }
}
