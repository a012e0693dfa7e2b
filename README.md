# Scala Gestão: fleet expense reports in Dafny

Scala Gestão is a small Flask application that a transport company uses to
record its vehicles, employees, fuel purchases, maintenance jobs, general
expenses and revenues. This project models the part of `app.py` that
computes and checks figures, and proves properties about it:

- the period report (`relatorios`):
  - revenue, fuel, maintenance and general-expense totals over an
    inclusive date interval;
  - the expense total and the balance;
  - the "spending by category" dictionary;
  - the unified expense list, stably sorted by date;
  - the revenue list;
  - the per-vehicle breakdown;
  - the guards in front of the two charts;
- the dashboard of the current month (`home`);
- the monthly e-mail summary (`enviar_relatorio`) and its "previous month"
  step;
- the `admin_required` and `login_required` gates;
- the revenue form's vehicle-id parse and the upper-casing of plates;
- deleting a vehicle, with the cascade to its fuel, maintenance and revenue
  rows.

Money is held in integer cents and litres in hundredths of a litre. The
database's SQL queries (`between`, `extract`, `sum`, `group_by`) are
written as filters and sums over in-memory sequences of rows.

Modules, in dependency order:

- `Wrappers`: Option and Result.
- `Calendar`: dates, their order, periods, day steps, the reported month.
- `Records`: the rows.
- `Totals`: filters, sums, the period summary.
- `CategoryTotals`: the category dictionary.
- `StableSort`: the date sort.
- `ExpenseList`: the unified expense list.
- `VehicleBreakdown`: the per-vehicle section.
- `Charts`: the chart guards.
- `Access`: the route gates.
- `Forms`: form-field normalisation.
- `Fleet`: the store and the vehicle delete.
- `Reports`: the period report.
- `Dashboard`: the home page.
- `MonthlyEmail`: the e-mail summary.

Behaviour of the code worth knowing:

- The period report does not check that the start date precedes the end
  date. An inverted interval is accepted, matches no row and gives an
  all-zero report (`Reports.InvertedIntervalReport`).
- 'Combustível' and 'Manutenção' are present in the category dictionary
  exactly when the fuel or maintenance total is positive, or when a general
  expense category of the same name has a positive sum. Such a category is
  merged into the fixed bucket (`CategoryTotals.CategoryMapContents`).
- The dashboard takes the month's spending as the sum of the dictionary's
  values. This equals the month's expense total only when neither the fuel
  total, the maintenance total nor any category sum is negative (`Dashboard.OverviewTotals`,
  `Dashboard.NegativeCategoryNotCounted`).
- A fuel or maintenance row of the period whose vehicle no longer exists
  makes `item.veiculo.placa` fail. The whole report then ends in the error
  flash (`ReportError.MissingVehicle`).

## Model

| member | source | states |
|---|---|---|
| Calendar.DaysInMonth | app.py:233-236 | every month has 28 to 31 days; February has 29 exactly in leap years |
| Calendar.LeTotalOrder | app.py:184 | the date order the sort and `between` use is reflexive, total, antisymmetric and transitive |
| Calendar.IntervalInclusive | app.py:152-155 | both ends of an interval are in it; an interval whose end precedes its start contains no date |
| Calendar.Period.Contains | app.py:124-155 | a date belongs to an interval iff it lies between both ends, ends included (SQL `between`), and to a month iff its year and month are that month's (`extract`) |
| Calendar.MonthIsInterval | app.py:124 | the year/month selection picks the same valid dates as the interval from the month's first to its last day |
| Calendar.NextDay | app.py:235 | the reference successor used to characterise the one-day step back at this line (the source itself only subtracts a day): one day later is a valid, strictly later date, absent only after 9999-12-31 |
| Calendar.PrevDay | app.py:235 | one day earlier is a valid, strictly earlier date, absent only before 0001-01-01 |
| Calendar.PrevDayNextDayInverse | app.py:235 | stepping back one day and stepping forward one day undo each other |
| Calendar.PrevDayIsImmediate | app.py:235 | no valid date lies strictly between a date and the day before it |
| Calendar.ReportMonth | app.py:233-236 | the reported month is the previous month, wrapping to December of the previous year in January; absent only for January of year 1 |
| Calendar.ReportMonthEndsOnLastDay | app.py:234-236 | the day reached is the last day of the reported month |
| Records.FindVehicle | models.py:19-27 | a lookup by primary key returns a stored vehicle with that id, and returns nothing iff no vehicle has it |
| Records.PlateOf | app.py:179 | a row's plate is available iff some vehicle has the row's vehicle id, it is the plate of a vehicle with that id, and with unique ids it is that vehicle's plate |
| Totals.Sum | app.py:152-155 | the total of a value over rows, 0 for no rows (`func.sum(...) or 0.0`, and Python `sum` at app.py:200-202) |
| Totals.Filter | app.py:152-155 | a query's result keeps exactly the rows satisfying its condition and is never longer than the table |
| Totals.FilterAppend | app.py:173-175 | selecting from two runs of rows is selecting from each in turn |
| Totals.SumAppend | app.py:152-155 | a sum over two runs of rows is the sum of the two sums |
| Totals.SumPermutation | app.py:184 | a sum does not depend on the order of the rows |
| Totals.FilterNothing | app.py:152-155 | a condition no row satisfies selects nothing |
| Totals.SumNonNegative | app.py:166-167 | rows with non-negative amounts have a non-negative sum |
| Totals.Summarize | app.py:152-155 | the four period totals: revenues, fuel, maintenance and general expenses, each the sum over the rows whose date the period contains, 0 when there is none |
| Totals.PeriodSummary.Expenses | app.py:156 | the expense total is fuel plus maintenance plus general expenses |
| Totals.PeriodSummary.Balance | app.py:158-161 | the balance (`saldo`) is revenues minus the expense total |
| Totals.EmptyPeriodSummary | app.py:152-162 | with no row in the period every total, the expense total and the balance are 0 |
| Totals.InvertedIntervalSummary | app.py:152-155 | an interval ending before it starts gives all-zero totals |
| Totals.BoundaryRowsCounted | app.py:152-155 | rows dated on the start or on the end of the interval are selected by each of the four queries |
| Totals.SummaryAdditive | app.py:152-162 | each total, the expense total and the balance over two sets of rows are the sums of those over each set |
| Totals.FilterCongruent | app.py:124 | two conditions that agree on every row select the same rows |
| Totals.MonthAsInterval | app.py:238-243 | on valid dates, the four month queries return the same rows and totals as the interval from the month's first to last day |
| CategoryTotals.Dict.Get | app.py:170 | `d.get(k, 0)`: the value stored under the key, or 0 when absent |
| CategoryTotals.Dict.Total | app.py:131 | `sum(d.values())`: the values added up in key order |
| CategoryTotals.Dict.Put | app.py:170 | storing a key keeps the dictionary well formed; an existing key keeps its place and a new key goes last |
| CategoryTotals.PutTotal | app.py:170 | storing `v` under `k` changes the sum of the values by `v` minus the old value |
| CategoryTotals.CategorySum | app.py:168 | the per-category `func.sum(DespesaGeral.valor)` of the `group_by(categoria)` query: the values of the rows of that category |
| CategoryTotals.Categories | app.py:168 | the group categories, position by position |
| CategoryTotals.DistinctCategories | app.py:168 | each category that occurs, once |
| CategoryTotals.GroupsFor | app.py:168 | one group per category, holding that category's sum |
| CategoryTotals.GroupByCategory | app.py:168 | the result is a valid `group_by`: distinct categories, exactly those that occur, each with its sum |
| CategoryTotals.Seed | app.py:165-167 | the dictionary with the two guarded fixed buckets is well formed |
| CategoryTotals.AddGroup | app.py:169-170 | one group adds its total to its category (merging with any existing value) when the total is positive and leaves every other key as it was |
| CategoryTotals.CategoryMap | app.py:165-170 | the dictionary seeded with the positive fuel and maintenance totals and then merged with every positive general-expense group |
| CategoryTotals.AddGroups | app.py:169-170 | the group loop keeps the dictionary well formed |
| CategoryTotals.BuildCategoryMap | app.py:165-170 | the route's dictionary is the category map of the fuel total, the maintenance total and the groups |
| CategoryTotals.MergeGroups | app.py:169-170 | the loop over the groups computes the group fold |
| CategoryTotals.AddGroupsGet | app.py:170 | after the loop a key holds its old value plus the positive totals of its groups |
| CategoryTotals.AddGroupsHas | app.py:170 | after the loop a key is present iff it was before or one of its groups is positive |
| CategoryTotals.AddGroupsPositive | app.py:170 | the loop never stores a non-positive value |
| CategoryTotals.AddGroupsKeepsOrder | app.py:170 | keys already present keep their order; new keys follow them |
| CategoryTotals.AddGroupsTotal | app.py:170 | the loop raises the sum of the values by the positive group totals |
| CategoryTotals.SeedFacts | app.py:166-167 | 'Combustível' holds the fuel total iff it is positive, and likewise 'Manutenção' with maintenance |
| CategoryTotals.GroupingPositiveSum | app.py:168-170 | over any valid grouping, the positive totals of a key's groups are the key's positive sum |
| CategoryTotals.SumOfCategorySumsIsCost | app.py:168 | the category sums over the distinct categories add up to the general-expense total |
| CategoryTotals.CategorySumNonNegative | app.py:168 | non-negative rows give non-negative category sums |
| CategoryTotals.CategoryMapContents | app.py:165-170 | a key is present iff it is a fixed bucket with a positive total or a category with a positive sum; its value is the sum of those positive parts; no value is non-positive |
| CategoryTotals.CategoryMapTotal | app.py:165-170 | with non-negative amounts the values add up to fuel plus maintenance plus the general-expense total |
| StableSort.SortByDate | app.py:184 | the array ends sorted by date, with every date's rows in their original order |
| StableSort.InsertLeft | app.py:184 | one insertion step: the first i + 1 rows become sorted by date while every date keeps its rows in their original order |
| StableSort.SameDayOrderTransitive | app.py:184 | keeping each date's order composes |
| StableSort.SameDayOrderPermutation | app.py:184 | a result with each date's rows in order is a permutation of the input |
| StableSort.StableSortUnique | app.py:184 | a stable sort has a single possible result |
| ExpenseList.FuelEntry | app.py:178-179 | a fuel row becomes an entry of kind 'Combustível' with its litres, its vehicle's plate and its total |
| ExpenseList.MaintenanceEntry | app.py:180-181 | a maintenance row becomes an entry of kind 'Manutenção' with its service, its vehicle's plate and its cost |
| ExpenseList.ExpenseEntry | app.py:182-183 | a general expense becomes an entry of its own category with its description, no plate and its value |
| ExpenseList.Unsorted | app.py:177-183 | the fuel entries, then the maintenance entries, then the general expense entries, each in row order |
| ExpenseList.BuildUnsorted | app.py:177-183 | the three append loops give the fuel, then the maintenance, then the general-expense entries |
| ExpenseList.BuildExpenseList | app.py:177-184 | the unified list is the stable date sort of the appended entries |
| ExpenseList.UnsortedShape | app.py:178-183 | one entry per row, in place; fuel entries typed 'Combustível' and maintenance entries 'Manutenção', both with the vehicle's plate; general entries typed by their category with no plate |
| ExpenseList.UnsortedTotal | app.py:178-183 | the entries add up to fuel plus maintenance plus general expenses |
| ExpenseList.ExpenseListPermutation | app.py:177-184 | the sorted list is a permutation of the entries, one per row in the period |
| ExpenseList.ExpenseListSameDay | app.py:184 | on each day the list holds that day's fuel, then maintenance, then general entries, each in query order |
| ExpenseList.LinkedRowsHavePlates | app.py:179-181 | when every row reaches its vehicle, every fuel and maintenance entry carries a plate |
| VehicleBreakdown.VehicleFuels | app.py:192 | the vehicle's fuel rows dated in the period |
| VehicleBreakdown.VehicleMaintenances | app.py:193 | the vehicle's maintenance rows dated in the period |
| VehicleBreakdown.VehicleRevenues | app.py:194 | the revenues linked to the vehicle and dated in the period |
| VehicleBreakdown.Active | app.py:192-196 | a vehicle is listed iff it has a fuel, maintenance or revenue row in the period |
| VehicleBreakdown.ReportFor | app.py:197-203 | a vehicle's entry: plate, model, its fuel, maintenance and revenue sums, and its fuel and maintenance rows |
| VehicleBreakdown.Breakdown | app.py:189-203 | the entries of the active vehicles, in vehicle-table order |
| VehicleBreakdown.BreakdownAppend | app.py:191-203 | entries follow the order of the vehicle list |
| VehicleBreakdown.BuildBreakdown | app.py:189-203 | the loop over the vehicles computes the breakdown |
| VehicleBreakdown.ActiveIffRows | app.py:196 | a vehicle is kept iff it has a fuel, maintenance or revenue row in the period |
| VehicleBreakdown.BreakdownMembers | app.py:191-203 | an entry is in the breakdown iff it is the report of a kept vehicle |
| VehicleBreakdown.ReportForContents | app.py:197-203 | each entry carries the vehicle's plate and model, and the sums of exactly its rows in the period |
| VehicleBreakdown.BreakdownLength | app.py:189-203 | at most one entry per vehicle; one for every vehicle when all are active; none when none is |
| Charts.PieChart | app.py:52-53 | no pie chart only for empty data |
| Charts.BarChart | app.py:67-68 | no bar chart for empty or all-zero data |
| Charts.GuardsDiffer | app.py:53-68 | every non-empty all-zero series gets a pie chart but no bar chart; an empty series gets neither |
| Access.AdminRequired | app.py:87-94 | the action runs iff the user is authenticated with role 'admin'; otherwise the answer is a redirect home with the 'danger' flash |
| Access.LoginRequired | app.py:41-45 | anonymous users are redirected to the login view with the 'info' message; others reach the route |
| Access.AdminRouteOutcomes | app.py:291-294 | a route stacked `@login_required @admin_required` sends anonymous users to login, non-admins home, and runs for admins |
| Forms.DecimalValue | app.py:516 | `int(s)` on a string of ASCII decimal digits: the number it denotes in base 10 |
| Forms.ParseVehicleId | app.py:516 | an id is read iff the field is present, non-empty and all digits, and it is the decimal value of the field |
| Forms.Decimal | app.py:516 | `str(n)` is a non-empty string of digits |
| Forms.ParseDecimal | app.py:535 | the decimal text of an id is read back as that id |
| Forms.LeadingZero | app.py:535 | a leading zero does not change the id read |
| Forms.ParseVehicleIdAsWritten | app.py:516 | the parse fails exactly on a digit-like field that is not all decimal digits |
| Forms.SuperscriptDigitFails | app.py:516 | a superscript two makes the parse fail |
| Forms.ParseAgreesUnlessValueError | app.py:535 | where the parse as written succeeds it agrees with `ParseVehicleId` |
| Forms.NormalizePlate | app.py:270 | the plate upper-cased letter by letter, as stored on add (app.py:270) and edit (app.py:283) |
| Forms.NormalizePlateFacts | app.py:270 | an upper-cased plate keeps its length and non-letters, has no lower-case letter, and upper-casing it again changes nothing |
| Forms.NormalizePlateCaseInsensitive | app.py:270 | two plates that differ only in the case of ASCII letters (same character, or code points 32 apart) are stored the same |
| Fleet.Store.constructor | models.py:19-71 | the store holds the given tables |
| Fleet.Store.DeleteVehicle | app.py:295-298 | the store becomes the tables after the delete and keeps its ids unique |
| Fleet.Store.DeleteVehicleRoute | app.py:291-299 | only an admin changes the store; the answer is that of the two gates with the fleet page |
| Fleet.AfterDelete | app.py:295-298 | the tables unchanged when no vehicle has the id, otherwise without that vehicle and its fuel, maintenance and revenue rows (the cascade of models.py:25-27) |
| Fleet.DistinctAfterDelete | models.py:20 | deleting a vehicle keeps the primary keys unique |
| Fleet.DeleteRemovesOneVehicle | app.py:295-298 | with unique ids exactly one vehicle row goes |
| Fleet.DeleteRemovesExactly | models.py:25-27 | an unknown id changes nothing; otherwise the vehicle and exactly its fuel, maintenance and revenue rows go, and the rest stays |
| Fleet.DeleteKeepsLinks | models.py:25-27 | if every row reached its vehicle before the delete, it still does after |
| Fleet.DeleteKeepsOtherReports | models.py:25-27 | every other vehicle's breakdown entry and activity are the same after the delete |
| Reports.Values | app.py:206 | the chart data are the dictionary's values in key order |
| Reports.GenerateReport | app.py:139-224 | an unparsable date gives the date error; otherwise the report succeeds iff every fuel and maintenance row of the period reaches its vehicle, and then every part is as specified |
| Reports.LinkedDataReports | app.py:179-181 | on data whose rows all reach their vehicles the report never fails for a missing vehicle |
| Reports.ReportConsistent | app.py:152-207 | the list has one entry per row, is sorted and adds up to the expense total; the revenues are a sorted permutation of the period's; with non-negative amounts the category values add up to the expense total |
| Reports.CategoryValuesAddUp | app.py:156-170 | with non-negative amounts the category values of a period add up to its expense total |
| Reports.ReportCharts | app.py:206-207 | no pie chart iff no bucket or category is positive; no bar chart iff revenue and expenses are both 0 |
| Reports.PieChartAbsent | app.py:165-170 | the category pie is absent iff the dictionary is empty iff nothing is positive |
| Reports.InvertedIntervalReport | app.py:143-207 | an inverted interval is accepted and gives zero totals, no category, no row, no vehicle and no chart |
| Reports.NothingSelected | app.py:173-194 | a period without dates selects no row and no vehicle |
| Reports.ReportUnique | app.py:152-207 | the report is determined by the period and the data |
| Dashboard.ActiveEmployees | app.py:136 | `Funcionario.query.filter_by(ativo=True)`: the employees marked active |
| Dashboard.MonthCategories | app.py:123-130 | the month's dictionary is well formed |
| Dashboard.OverviewFor | app.py:120-136 | the home overview: vehicle count, active employee count, month spending as the sum of the category dictionary, month revenue, their difference and the chart data |
| Dashboard.BuildOverview | app.py:120-136 | the route's values are the month's overview |
| Dashboard.SumValues | app.py:131 | the loop adds up the dictionary's values |
| Dashboard.OverviewChart | app.py:134-135 | one bar per distinct category, each positive, present iff its total is positive |
| Dashboard.OverviewTotals | app.py:124-133 | with non-negative amounts the month's spending and balance are the month's expense total and balance |
| Dashboard.NegativeCategoryNotCounted | app.py:130-131 | a negative category sum is left out of the dashboard's spending but counted in the expense total |
| MonthlyEmail.MonthlySummary | app.py:232-243 | the summary is for the reported month and its balance is revenue minus expenses; absent only for January of year 1 |
| MonthlyEmail.Deliver | app.py:245-253 | the summary is reported sent iff it could be computed and the mail was delivered; otherwise the error flash |
| MonthlyEmail.SendMonthlyReport | app.py:227-253 | anonymous users go to login and non-admins home; an admin gets the summary sent iff it was computed and delivered |
| MonthlyEmail.MonthlySummaryMatchesReport | app.py:233-243 | the e-mail covers the previous month, and its figures are those of the period report over that month |

## Left out

- Web plumbing is not modelled: Flask routing, request and form access,
  templates, `flash` and `redirect`. Redirects and flashed messages are
  values, and each route yields the data it hands to its template.
- The GET branches that only render a form are not modelled.
- flask_login's session handling and `load_user` are not modelled. A
  session is a value: anonymous, or signed in with a username and a role.
- Password hashing and `check_password`, in models.py, are a foreign
  cryptographic call.
- The login and logout routes are not modelled.
- Chart drawing with matplotlib, PNG and base64 encoding, and PDF
  generation with WeasyPrint are not modelled. A drawn chart is represented
  by its title and series.
- Building the mail and sending it with Flask-Mail is network I/O.
  Delivery success is a parameter of `MonthlyEmail.SendMonthlyReport`.
- Money is held in integer cents, not floats. Float rounding and
  `round(..., 2)` are not modelled.
- `datetime.now()` and `today()` become parameters. `strptime` is not
  modelled: a date it rejects is an absent date, answered by the date error.
- Formatting is not modelled: the "%.2fL" fuel description is kept as the
  number of hundredths of a litre, and `strftime` output is left out.
- The database engine, sessions and `commit` are not modelled. Rows are
  sequences.
- SQLite does not enforce foreign keys, so rows that point nowhere are
  allowed (`Fleet.Linked` is a property, not an invariant).
- init_db.py and static/js/main.js are not part of this model.
- The add and edit routes are plain field assignments. Only their
  vehicle-id parse and plate upper-casing are modelled.
- The other list and delete routes of employees, fuel, maintenance,
  expenses and revenues are not modelled.
- Forms.ParseVehicleId: digits are ASCII only. Other Unicode decimal
  digits, which both `isdigit` and `int` accept, are not modelled.
- Forms.ParseVehicleIdAsWritten: of the characters `isdigit` accepts but
  `int` rejects, only the superscripts ¹ ² ³ are modelled.
- Forms.NormalizePlate: `upper()` is modelled on ASCII letters only; other letters, and case mappings that change the length such as "ß", are kept as typed.
- Forms.NormalizePlateFacts: its facts hold of the ASCII-only `upper()` above.
  Unicode case mapping is left out.
- CategoryTotals.GroupByCategory: the database returns the groups in an
  order it chooses. The model fixes one order. Every property about the
  dictionary is proved for any grouping (`IsGrouping`) except the key
  order, which the chart labels inherit.
- Reports.GenerateReport: `order_by(Receita.data)` leaves the order of
  same-day revenues to the database. The model sorts them stably by date,
  keeping table order.
- Calendar.ReportMonth: for January of year 1 Python's date arithmetic
  raises OverflowError, which the route catches. The model returns None and
  the route reports failure.

## Findings

| source | as written | input that shows it | evidently intended | confidence | as-written member | corrected member |
|---|---|---|---|---|---|---|
| app.py:516 | the field is parsed with `int` whenever `str.isdigit` accepts it | `id_veiculo` = "²": `isdigit` accepts it, `int` raises ValueError, and the add or edit fails with a server error | only a decimal id is read; anything else gives no vehicle | high (Python's documented `isdigit` and `int` behaviour); not executed | Forms.ParseVehicleIdAsWritten, Forms.SuperscriptDigitFails | Forms.ParseVehicleId, Forms.ParseDecimal |
