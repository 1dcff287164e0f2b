/**
 * The shapes of the source data (one item per person, an employee or an
 * external) and of the display rows the table shows.
 *
 * Every numeric string of the data appears here already parsed:
 * `Some(x)` for a non-empty string that reads as `x`, `None` for a field
 * that is missing or holds the empty string (both falsy in JavaScript).
 */
module Records {
  import opened Wrappers

  datatype MonthUtilisation = MonthUtilisation(month: string, utilisationRate: Option<real>)

  datatype WorkforceUtilisation = WorkforceUtilisation(
    utilisationRateLastTwelveMonths: Option<real>,
    utilisationRateYearToDate: Option<real>,
    lastThreeMonthsIndividually: Option<seq<MonthUtilisation>>)

  /** One entry of `potentialEarningsByMonth`, keyed by "YYYY-MM". */
  datatype MonthCosts = MonthCosts(month: string, costs: Option<real>)

  datatype CostsByMonth = CostsByMonth(potentialEarningsByMonth: Option<seq<MonthCosts>>)

  /** A monthly salary in whole euros. */
  datatype StatusAggregation = StatusAggregation(monthlySalary: Option<int>)

  datatype Employee = Employee(
    name: string,
    status: string,
    workforceUtilisation: Option<WorkforceUtilisation>,
    costsByMonth: Option<CostsByMonth>,
    statusAggregation: Option<StatusAggregation>)

  datatype External = External(
    name: string,
    status: string,
    workforceUtilisation: Option<WorkforceUtilisation>,
    hourlyRateForProjects: Option<real>)

  /** One item of the source array, with its two optional slots. */
  datatype SourceRecord = SourceRecord(employees: Option<Employee>, externals: Option<External>)

  /** One row of the table; every column is a pre-formatted string. */
  datatype DisplayRow = DisplayRow(
    person: string,
    past12Months: string,
    y2d: string,
    may: string,
    june: string,
    july: string,
    netEarningsPrevMonth: string)
}
