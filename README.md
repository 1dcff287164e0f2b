# Utilisation table projection

This project models the data step of a utilisation-rate table, `src/table-script.tsx`. It has two parts.

- **Month framing.** `getCurrentMonthData` takes the current date and returns:
  - the current month's name;
  - the previous month's name;
  - the previous month's `"YYYY-MM"` key.
- **Projection.** A `reduce` over the source items turns every active person into one display row. Each row has:
  - the person's name;
  - the twelve-month and year-to-date utilisation as percentages;
  - fixed May, June and July columns;
  - the previous month's net earnings in euros.

An item holds an employee slot, an external slot, both, or neither; an item with neither gives no row. The employee slot is read first.

- An employee's earnings come from the first `potentialEarningsByMonth` entry for the previous month's key, rounded. If that is missing, the monthly salary is used. With neither, the earnings are zero.
- An external's earnings are 160 hours times the previous month's utilisation times the hourly rate, rounded. They are zero without an hourly rate or without utilisation data.

The Dafny modules follow the steps of the source:

| Module | What it holds |
|---|---|
| `Format` | `Math.round`, integer-to-text (with a parser as its inverse) and `padStart` |
| `MonthFrame` | `getCurrentMonthData` |
| `Records` | The data and row shapes |
| `Lookup` | `Array.prototype.find` |
| `Columns` | The utilisation lookups and the percentage and currency text |
| `Earnings` | The earnings step, both as a function and as the source's imperative branch chain |
| `RowProjection` | The reduce callback |
| `Table` | The fold |
| `Scenarios` | Worked cases on concrete data |

The numeric strings of the data are taken as already parsed. A field is `Some(x)` for a non-empty string that reads as `x`. It is `None` when missing or empty, both of which are falsy in JavaScript.

Some behaviours of the code are easy to miss; the model follows the code:

- **May column.** An entry for May whose rate is blank shows `"NaN%"`, because `parseFloat('')` is NaN, while June and July test the rate itself and show `"0%"`.
- **Both slots filled.** When an item has both slots, the employee slot decides everything, including the status test. An inactive employee therefore hides an active external in the same item.
- **Two-digit years.** `new Date(year, month - 1, 1)` reads a year from 0 to 99 as 1900 to 1999. So the previous month of such a year falls in 1899 to 1999 (December 1899 for January of year 0).
- **Rounding.** `Math.round` rounds a half towards +∞.

## Model

| member | source | states |
|---|---|---|
| Format.NatToString | src/table-script.tsx:53 | A non-negative integer is written as at least one decimal digit, with a leading "0" only for zero itself; `Format.NatToStringValue` shows the digits denote the number. |
| Format.IntToString | src/table-script.tsx:53 | An integer's template-literal text is non-empty and starts with "-" exactly when the integer is negative; `Format.IntToStringRoundTrip` shows it parses back to the integer. |
| Format.NatToStringValue | src/table-script.tsx:53 | The decimal digits written for a non-negative integer denote that integer. |
| Format.IntToStringRoundTrip | src/table-script.tsx:53 | An integer's template-literal text parses back to that integer, so the text loses nothing. |
| Format.IntToStringInjective | src/table-script.tsx:23 | Different integers are written differently. |
| Format.PadStart | src/table-script.tsx:23 | `padStart` leaves a string that is long enough unchanged. Otherwise it gives exactly the target width: the fill character first, then the original string as the suffix. |
| Format.Round | src/table-script.tsx:53 | `Math.round` gives the integer within half of the argument, a half rounding up. |
| MonthFrame.ConstructorYear | src/table-script.tsx:14 | The `Date` constructor keeps a year unchanged exactly when it is outside 0 to 99; a year from 0 to 99 becomes the year in 1900 to 1999 with the same last two digits. |
| MonthFrame.PrevMonth | src/table-script.tsx:14 | The previous month is exactly one month before the reference month, in the year the `Date` constructor uses. |
| MonthFrame.PrevMonthIsCalendarPrevious | src/table-script.tsx:14-16 | For four-digit years, January's previous month is December of the year before. Any other month's previous month is the month before in the same year. |
| MonthFrame.PrevMonthOfTwoDigitYear | src/table-script.tsx:14-16 | For years 0 to 99, the constructor moves the previous month into 1899 to 1999. |
| MonthFrame.MonthKey | src/table-script.tsx:23 | Characterised by `MonthFrame.MonthKeyShape` and `MonthFrame.MonthKeyInjective`: the year's text, a dash, and the two-digit one-based month, distinct for distinct months. |
| MonthFrame.MonthKeyShape | src/table-script.tsx:23 | The previous-month key is the year's text, a dash, and two digits that read as the one-based month number, so "01" to "12". |
| MonthFrame.MonthKeyInjective | src/table-script.tsx:23 | Distinct months never share a key. |
| MonthFrame.CurrentMonthData | src/table-script.tsx:10-25 | The current month's name and the previous month's name are the English names of the month and of the month before it. The key is the key of the previous month. That month is one month before the reference month. |
| Lookup.Find | src/table-script.tsx:41 | A found element has the searched key; `Lookup.FindFirstMatch` and `Lookup.FindIsFirst` show it is the first such element, and that nothing is found exactly when no element has the key. |
| Lookup.FindFirstMatch | src/table-script.tsx:41 | `find` gives nothing exactly when no element matches. Otherwise it gives the first matching element. |
| Lookup.FindIsFirst | src/table-script.tsx:41 | Whatever `find` returns sits at the first matching position. |
| Columns.LastThreeMonths | src/table-script.tsx:37 | The person's last-three-months entries when both the utilisation data and the list are present, and the empty list otherwise. |
| Columns.MonthRate | src/table-script.tsx:84-89 | Characterised by `Columns.MonthRateOfFirstEntry`: the rate of the first entry for the month, falsy exactly when there is none or it is blank. |
| Columns.MonthRateOfFirstEntry | src/table-script.tsx:84-89 | A month's rate is the rate of its first entry. It is falsy exactly when there is no entry for the month or the first one is blank. |
| Columns.PrevMonthUtil | src/table-script.tsx:41 | Characterised by `Columns.PrevMonthUtilOfFirstEntry`: the first previous-month rate, or 0 when that is missing or blank. |
| Columns.PrevMonthUtilOfFirstEntry | src/table-script.tsx:37-41 | The previous month's utilisation is the rate of the first entry with the previous month's name. It is 0 when there is no such entry or it is blank. |
| Columns.PercentText | src/table-script.tsx:72 | A percentage text is at least two characters and ends in "%"; `Columns.PercentTextReadsBack` shows the rest reads as the rounded hundredfold rate. |
| Columns.PercentTextReadsBack | src/table-script.tsx:71-76 | A percentage is an integer within half of a hundred times the rate, followed by "%". |
| Columns.RateCell | src/table-script.tsx:71-76 | A falsy rate shows "0%". A present rate shows its percentage. |
| Columns.FixedMonthCell | src/table-script.tsx:84-89 | Characterised by `Columns.FixedMonthCellDefaults`: "0%" without a truthy first-entry rate, otherwise that rate's percentage. |
| Columns.FixedMonthCellDefaults | src/table-script.tsx:84-89 | June and July show "0%" when the month has no entry or its first entry is blank. Otherwise they show the first entry's percentage. |
| Columns.MayCell | src/table-script.tsx:77-82 | The May column shows "..." exactly when there is no May entry, so an entry with a blank rate never reads as absent. |
| Columns.MayCellDefaults | src/table-script.tsx:77-82 | May shows "..." without an entry and "NaN%" for a first entry with a blank rate. Otherwise it shows the first entry's percentage. |
| Columns.AsymmetricDefaults | src/table-script.tsx:77-89 | With no entries for the three months, May shows "..." where June and July show "0%". |
| Columns.EurText | src/table-script.tsx:53-65 | An earnings text ends in " EUR"; `Columns.EurTextReadsBack` shows the amount parses back from what precedes it. |
| Columns.EurTextReadsBack | src/table-script.tsx:53-65 | An earnings text ends in " EUR" after text that parses back to the amount. |
| Columns.ZeroEur | src/table-script.tsx:44 | The default earnings text "0 EUR" is the text of amount zero. |
| Earnings.EarningsEntries | src/table-script.tsx:48 | The employee's `potentialEarningsByMonth` list when it and `costsByMonth` are present, and the empty list otherwise, so that the lookup finds nothing. |
| Earnings.CostsFor | src/table-script.tsx:48-50 | Characterised by `Earnings.CostsForOfFirstEntry`: the costs of the first entry for the key, falsy exactly when there is none or it is blank. |
| Earnings.CostsForOfFirstEntry | src/table-script.tsx:48-50 | The costs are those of the first entry for the key. They are falsy exactly when there is none or the first one is blank. |
| Earnings.TruthySalary | src/table-script.tsx:54-56 | The salary is taken exactly when it is present and not zero, and what is taken is the salary itself. |
| Earnings.PrevMonthEarnings | src/table-script.tsx:46-67 | The employee slot decides when present. Otherwise the external slot decides. With neither, the earnings are zero. |
| Earnings.ComputeNetEarnings | src/table-script.tsx:44-67 | The source's chain of assignments to `netEarnings` gives exactly the text of the previous month's earnings. |
| Earnings.EmployeeEarnings | src/table-script.tsx:46-57 | Characterised by `Earnings.EmployeeEarningsPrecedence`: rounded truthy costs, else the truthy salary, else 0. |
| Earnings.EmployeeEarningsPrecedence | src/table-script.tsx:46-57 | The rounded costs of the first entry for the key win over the salary. The salary, unrounded, is used only when those costs are falsy. With neither, the earnings are zero. |
| Earnings.UnpaidExternalEarnsZero | src/table-script.tsx:60-61 | An external without an hourly rate or without utilisation data earns zero. |
| Earnings.ExternalEarnings | src/table-script.tsx:58-66 | Characterised by `Earnings.UnpaidExternalEarnsZero`, `Earnings.ExternalEarningsOfFirstEntry` and `Earnings.ExternalEarningsWithoutRate`: 0 unless paid, otherwise round(160 × rate × hourly rate). |
| Earnings.ExternalEarningsOfFirstEntry | src/table-script.tsx:58-66 | A paid external earns the rounded product of 160 hours, the first previous-month rate and the hourly rate. |
| Earnings.ExternalEarningsWithoutRate | src/table-script.tsx:41-66 | With no truthy previous-month rate, an external earns zero. |
| RowProjection.SelectPerson | src/table-script.tsx:31 | The person is the employee when that slot is filled, and the external otherwise. It is missing only when both slots are empty. |
| RowProjection.Active | src/table-script.tsx:33 | Characterised by `RowProjection.ProjectRecord`: an item is active exactly when it yields a row, that is, when it has a person whose status is "active". |
| RowProjection.ProjectRecord | src/table-script.tsx:31-33 | An item gives a row exactly when it has a person whose status is "active". |
| RowProjection.RowColumns | src/table-script.tsx:69-91 | An active item's row carries the person's name and the two summary rates, with "0%" when they are falsy. It also carries the May, June and July columns of the person's entries and the text of the previous month's earnings. |
| RowProjection.BuildRow | src/table-script.tsx:30-91 | The callback body, with its imperative earnings step, gives the same result as the row projection. |
| RowProjection.EmployeeSlotWins | src/table-script.tsx:31 | When both slots are filled, the external slot has no effect on the row. |
| RowProjection.InactiveEmployeeHidesExternal | src/table-script.tsx:31-33 | An inactive employee suppresses the row even when the same item holds an active external. |
| Table.Step | src/table-script.tsx:93 | One callback step keeps the accumulator as a prefix (`return acc` at line 33) and adds exactly the row when there is one (`[...acc, row]`). |
| Table.Reduce | src/table-script.tsx:27-29 | The fold never shortens its accumulator, keeps it as a prefix, and adds at most one row per item. |
| Table.ReduceSnoc | src/table-script.tsx:93 | Folding one more item is one more callback step. |
| Table.ReduceIsKept | src/table-script.tsx:27-94 | The fold appends to `[]` exactly the rows kept by an accumulator-free definition. |
| Table.KeptIndicesShape | src/table-script.tsx:33-93 | There is one kept position per kept row, each within the input, in strictly increasing order, and no more of them than items. |
| Table.KeptAtIndices | src/table-script.tsx:33-93 | The row at each kept position is the projection of that item. |
| Table.KeptIndicesMembership | src/table-script.tsx:33 | A position is kept exactly when its item's projection is a row. |
| Table.KeptIsStableFilter | src/table-script.tsx:33 | The kept rows are the projections at the kept positions, in increasing order. A position is kept exactly when its projection is a row. |
| Table.KeptConcat | src/table-script.tsx:93 | Concatenated inputs give concatenated rows. |
| Table.KeptSkipsNone | src/table-script.tsx:33 | An element without a row adds nothing, wherever it stands. |
| Table.TableData | src/table-script.tsx:27-94 | The table never has more rows than the data has items; `Table.TableDataIsStableFilter` characterises it completely. |
| Table.TableDataIsStableFilter | src/table-script.tsx:27-94 | The table is the order-preserving subsequence of the rows of the active items. It has exactly one row per active item and is never longer than the data. |
| Table.TableDataConcat | src/table-script.tsx:27-94 | The table of two runs of data is the two tables one after the other. |
| Table.TableDataSingle | src/table-script.tsx:33-93 | A single item gives its own row when active and nothing otherwise. |
| Table.InactiveItemAddsNothing | src/table-script.tsx:33 | An item that is not active can be removed without changing the table. |
| Scenarios.PercentOfSample | src/table-script.tsx:71-72 | A rate of 0.8234 shows as "82%". |
| Scenarios.ExternalSample | src/table-script.tsx:63-65 | 160 hours at utilisation 0.5 and 50 an hour is "4000 EUR". |
| Scenarios.ExternalWithoutRateSample | src/table-script.tsx:58-66 | An active external without an hourly rate shows "0 EUR". |
| Scenarios.May2024Frame | src/table-script.tsx:14-23 | In May 2024 the previous month is April, keyed "2024-04". |
| Scenarios.SampleEmployeeRow | src/table-script.tsx:44-91 | An employee with a May rate of 0.7 and costs of 3500.4 for the previous month's key shows "70%", "0%", "0%" and "3500 EUR". |
| Scenarios.EmployeeRowSample | src/table-script.tsx:10-91 | The same row, derived from the date May 2024. |
| Scenarios.FilterSample | src/table-script.tsx:33 | An inactive item between two active ones leaves exactly two rows. |

## Left out

- **The UI.** The `Example` component, the column declarations and the `material-react-table` calls (src/table-script.tsx:96-137) are left out. They are UI code and a foreign library.
- **Data loading.** The JSON import and the type casts (src/table-script.tsx:7-8, 28) are left out. The record shapes are datatypes, and the data is a parameter of `Table.TableData`.
- **Clock and locale.** `new Date()` and the locale-dependent `toLocaleString` are replaced:
  - the reference year and month are a parameter;
  - the month names come from a fixed English table.

  The source reads the clock once per item. The model uses one date for the whole table.
- **Number parsing and floating point.** `parseFloat` is abstracted: rates, costs and hourly rates are exact reals.
  - The model says nothing about floating-point rounding error.
  - It says nothing about malformed non-empty strings, which would give NaN.
  - A blank May rate is the one NaN case kept: it shows "NaN%".
- **Monthly salary.** The monthly salary is modelled in whole euros. How JavaScript writes a fractional or NaN salary is not modelled.
- **Large numbers.** Integers are written in plain decimal. JavaScript's exponent form for magnitudes of 10^21 and above is not modelled.
- **Unused values.** `currentMonthUtil` (src/table-script.tsx:40) is computed but never used, so it is not modelled. The same goes for the `currentYear` and `prevMonthYear` fields, which are carried in `MonthFrame.MonthData` but read by nothing.
- **Date range.** The range limits of JavaScript's `Date` are not modelled: years are unbounded integers.
