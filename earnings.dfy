/**
 * The previous month's net earnings of one item. The rule depends on the
 * slot: an employee is paid from the monthly earnings entries or the salary,
 * an external from the hourly rate and the previous month's utilisation.
 */
module Earnings {
  import opened Wrappers
  import opened Format
  import opened Records
  import opened Lookup
  import opened Columns

  /** Working hours assumed per month for an external: 40 hours a week, 4 weeks. */
  const HoursPerMonth: real := 160.0

  /**
   * The `potentialEarningsByMonth` list, or [] when it or `costsByMonth` is
   * missing, so that the optional-chained `find` of the costs lookup finds nothing.
   */
  function EarningsEntries(e: Employee): seq<MonthCosts>
  {
    match e.costsByMonth
    case None => []
    case Some(c) =>
      match c.potentialEarningsByMonth
      case None => []
      case Some(entries) => entries
  }

  /** The key `find` compares: an entry's "YYYY-MM" month. */
  function CostsMonth(m: MonthCosts): string { m.month }

  /** `costsByMonth?.potentialEarningsByMonth?.find(m => m.month === key)?.costs`, when truthy. */
  function CostsFor(e: Employee, key: string): Option<real>
  {
    match Find(EarningsEntries(e), CostsMonth, key)
    case None => None
    case Some(m) => m.costs
  }

  /**
   * The costs are those of the first entry for the key; they are falsy
   * exactly when there is no such entry or the first one is blank.
   */
  lemma CostsForOfFirstEntry(e: Employee, key: string)
    ensures NoMatch(EarningsEntries(e), CostsMonth, key) ==> CostsFor(e, key).None?
    ensures forall i :: IsFirstMatch(EarningsEntries(e), CostsMonth, key, i)
              ==> CostsFor(e, key) == EarningsEntries(e)[i].costs
    ensures var entries := EarningsEntries(e);
      CostsFor(e, key).None? <==>
        || NoMatch(entries, CostsMonth, key)
        || exists i :: IsFirstMatch(entries, CostsMonth, key, i) && entries[i].costs.None?
  {
    FindFirstMatch(EarningsEntries(e), CostsMonth, key);
    if Find(EarningsEntries(e), CostsMonth, key).Some? {
      FindIsFirst(EarningsEntries(e), CostsMonth, key);
    }
  }

  /** `statusAggregation?.monthlySalary`, when it is truthy (present and not zero). */
  function TruthySalary(e: Employee): (s: Option<int>)
    ensures s.Some? <==> e.statusAggregation.Some? && e.statusAggregation.value.monthlySalary.Some?
                         && e.statusAggregation.value.monthlySalary.value != 0
    ensures s.Some? ==> s.value == e.statusAggregation.value.monthlySalary.value
  {
    match e.statusAggregation
    case None => None
    case Some(a) =>
      match a.monthlySalary
      case None => None
      case Some(s) => if s == 0 then None else Some(s)
  }

  /** Truthy costs for the key; otherwise a truthy salary; otherwise nothing. */
  function EmployeeEarnings(e: Employee, prevMonthKey: string): int
  {
    match CostsFor(e, prevMonthKey)
    case Some(c) => Round(c)
    case None =>
      match TruthySalary(e)
      case Some(s) => s
      case None => 0
  }

  /** With an hourly rate and utilisation data, monthly hours times utilisation times rate. */
  function ExternalEarnings(x: External, prevMonthUtil: real): int
  {
    if x.hourlyRateForProjects.Some? && x.workforceUtilisation.Some?
    then Round(HoursPerMonth * prevMonthUtil * x.hourlyRateForProjects.value)
    else 0
  }

  /** The previous month's net earnings in euros; the employee slot is read first. */
  function PrevMonthEarnings(r: SourceRecord, prevMonthUtil: real, prevMonthKey: string): (amount: int)
    ensures r.employees.Some? ==> amount == EmployeeEarnings(r.employees.value, prevMonthKey)
    ensures r.employees.None? && r.externals.Some? ==> amount == ExternalEarnings(r.externals.value, prevMonthUtil)
    ensures r.employees.None? && r.externals.None? ==> amount == 0
  {
    match r.employees
    case Some(e) => EmployeeEarnings(e, prevMonthKey)
    case None =>
      match r.externals
      case None => 0
      case Some(x) => ExternalEarnings(x, prevMonthUtil)
  }

  /**
   * The earnings step as the source writes it: the text starts as "0 EUR"
   * and is overwritten by the first branch that applies.
   */
  method ComputeNetEarnings(r: SourceRecord, prevMonthUtil: real, prevMonthKey: string)
    returns (netEarnings: string)
    ensures netEarnings == EurText(PrevMonthEarnings(r, prevMonthUtil, prevMonthKey))
  {
    ZeroEur();
    netEarnings := "0 EUR";
    if r.employees.Some? {
      var costs := CostsFor(r.employees.value, prevMonthKey);
      if costs.Some? {
        netEarnings := EurText(Round(costs.value));
      } else if TruthySalary(r.employees.value).Some? {
        netEarnings := EurText(r.employees.value.statusAggregation.value.monthlySalary.value);
      }
    } else if r.externals.Some? {
      var hourlyRate := r.externals.value.hourlyRateForProjects;
      if hourlyRate.Some? && r.externals.value.workforceUtilisation.Some? {
        var hoursWorked := HoursPerMonth * prevMonthUtil;
        var earnings := hoursWorked * hourlyRate.value;
        assert PrevMonthEarnings(r, prevMonthUtil, prevMonthKey) == Round(earnings);
        netEarnings := EurText(Round(earnings));
      }
    }
  }

  /**
   * The rounded costs of the first entry for the previous month's key win
   * over the salary; the salary is used, unrounded, only when those costs
   * are falsy; with neither, the amount is zero.
   */
  lemma EmployeeEarningsPrecedence(e: Employee, key: string)
    ensures var entries := EarningsEntries(e);
      forall i :: IsFirstMatch(entries, CostsMonth, key, i) && entries[i].costs.Some?
        ==> EmployeeEarnings(e, key) == Round(entries[i].costs.value)
    ensures var entries := EarningsEntries(e);
      (|| NoMatch(entries, CostsMonth, key)
       || exists i :: IsFirstMatch(entries, CostsMonth, key, i) && entries[i].costs.None?)
        ==> EmployeeEarnings(e, key) == (if TruthySalary(e).Some? then TruthySalary(e).value else 0)
  {
    CostsForOfFirstEntry(e, key);
  }

  /** An external without an hourly rate or without utilisation data earns zero. */
  lemma UnpaidExternalEarnsZero(x: External, prevMonthUtil: real)
    requires x.hourlyRateForProjects.None? || x.workforceUtilisation.None?
    ensures ExternalEarnings(x, prevMonthUtil) == 0
  {
  }

  /**
   * An external with an hourly rate and utilisation data earns the rounded
   * product of the monthly hours, the rate of the first entry for the
   * previous month and the hourly rate.
   */
  lemma ExternalEarningsOfFirstEntry(x: External, entries: seq<MonthUtilisation>, prevMonthName: string, i: int)
    requires x.hourlyRateForProjects.Some? && x.workforceUtilisation.Some?
    requires IsFirstMatch(entries, EntryMonth, prevMonthName, i) && entries[i].utilisationRate.Some?
    ensures ExternalEarnings(x, PrevMonthUtil(entries, prevMonthName))
            == Round(HoursPerMonth * entries[i].utilisationRate.value * x.hourlyRateForProjects.value)
  {
    PrevMonthUtilOfFirstEntry(entries, prevMonthName);
    assert PrevMonthUtil(entries, prevMonthName) == entries[i].utilisationRate.value;
  }

  /** With no truthy rate for the previous month, an external earns zero. */
  lemma ExternalEarningsWithoutRate(x: External, entries: seq<MonthUtilisation>, prevMonthName: string)
    requires MonthRate(entries, prevMonthName).None?
    ensures ExternalEarnings(x, PrevMonthUtil(entries, prevMonthName)) == 0
  {
    var u := PrevMonthUtil(entries, prevMonthName);
    assert u == 0.0;
    if x.hourlyRateForProjects.Some? {
      assert HoursPerMonth * u * x.hourlyRateForProjects.value == 0.0;
    }
  }
}
