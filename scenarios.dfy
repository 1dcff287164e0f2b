/** Worked cases of the projection, on concrete data. */
module Scenarios {
  import opened Wrappers
  import opened Format
  import opened Records
  import opened MonthFrame
  import opened Columns
  import opened Earnings
  import opened RowProjection
  import opened Table

  /** A rate of 0.8234 shows as "82%". */
  lemma PercentOfSample()
    ensures PercentText(0.8234) == "82%"
  {
    assert Round(0.8234 * 100.0) == 82;
    assert IntToString(82) == "82";
  }

  /** 160 hours at half utilisation and 50 an hour is "4000 EUR". */
  lemma ExternalSample(name: string, u: WorkforceUtilisation)
    ensures ExternalEarnings(External(name, "active", Some(u), Some(50.0)), 0.5) == 4000
    ensures EurText(4000) == "4000 EUR"
  {
    assert HoursPerMonth * 0.5 * 50.0 == 4000.0;
    assert NatToString(4000) == NatToString(400) + ['0'];
    assert NatToString(400) == NatToString(40) + ['0'];
  }

  /** An external without an hourly rate shows "0 EUR". */
  lemma ExternalWithoutRateSample(x: External, now: YearMonth)
    requires x.status == "active" && x.hourlyRateForProjects.None?
    ensures var row := ProjectRecord(SourceRecord(None, Some(x)), CurrentMonthData(now));
      row.Some? && row.value.netEarningsPrevMonth == "0 EUR"
  {
    ZeroEur();
  }

  /** In May 2024 the previous month is April, keyed "2024-04". */
  lemma May2024Frame()
    ensures CurrentMonthData(YearMonth(2024, 4)).prevMonthName == "April"
    ensures CurrentMonthData(YearMonth(2024, 4)).prevMonthKey == "2024-04"
  {
    var p := PrevMonth(YearMonth(2024, 4));
    assert p == YearMonth(2024, 3);
    var year := IntToString(2024);
    assert year == "2024" by {
      assert NatToString(2024) == NatToString(202) + ['4'];
      assert NatToString(202) == NatToString(20) + ['2'];
    }
    var month := PadStart(IntToString(4), 2, '0');
    assert month == "04" by {
      assert IntToString(4) == "4";
    }
    assert MonthKey(p) == year + "-" + month;
  }

  /** The sample employee: a May rate of 0.7 and costs of 3500.4 for "2024-04". */
  function SampleEmployee(): Employee
  {
    Employee("Ada", "active",
      Some(WorkforceUtilisation(None, None, Some([MonthUtilisation("May", Some(0.7))]))),
      Some(CostsByMonth(Some([MonthCosts("2024-04", Some(3500.4))]))),
      None)
  }

  /**
   * With the previous month keyed "2024-04", the sample employee shows
   * "70%" for May, "0%" for June and July and "3500 EUR" for the previous month.
   */
  lemma SampleEmployeeRow(d: MonthData)
    requires d.prevMonthKey == "2024-04"
    ensures var row := ProjectRecord(SourceRecord(Some(SampleEmployee()), None), d);
      && row.Some?
      && row.value.may == "70%" && row.value.june == "0%" && row.value.july == "0%"
      && row.value.netEarningsPrevMonth == "3500 EUR"
  {
    assert Round(0.7 * 100.0) == 70;
    assert IntToString(70) == "70";
    assert Round(3500.4) == 3500;
    assert IntToString(3500) == "3500" by {
      assert NatToString(3500) == NatToString(350) + ['0'];
      assert NatToString(350) == NatToString(35) + ['0'];
    }
  }

  /** The same row, end to end, from the date May 2024. */
  lemma EmployeeRowSample()
    ensures var row := ProjectRecord(SourceRecord(Some(SampleEmployee()), None), CurrentMonthData(YearMonth(2024, 4)));
      && row.Some?
      && row.value.may == "70%" && row.value.june == "0%" && row.value.july == "0%"
      && row.value.netEarningsPrevMonth == "3500 EUR"
  {
    May2024Frame();
    SampleEmployeeRow(CurrentMonthData(YearMonth(2024, 4)));
  }

  /** An inactive item between two active ones leaves only their two rows. */
  lemma FilterSample(a: Employee, b: External, c: Employee, now: YearMonth)
    requires a.status == "active" && b.status == "inactive" && c.status == "active"
    ensures |TableData([SourceRecord(Some(a), None), SourceRecord(None, Some(b)), SourceRecord(Some(c), None)], now)| == 2
  {
    var ra, rb, rc := SourceRecord(Some(a), None), SourceRecord(None, Some(b)), SourceRecord(Some(c), None);
    assert Active(ra) && !Active(rb) && Active(rc);
    assert [ra, rb, rc] == [ra] + [rb] + [rc];
    InactiveItemAddsNothing([ra], rb, [rc], now);
    assert [ra] + [rc] == [ra, rc];
    TableDataConcat([ra], [rc], now);
    TableDataSingle(ra, now);
    TableDataSingle(rc, now);
  }
}
