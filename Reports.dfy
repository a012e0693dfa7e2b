/** The three places that put the aggregates together: the period report
    (`relatorios`), the dashboard of the current month (`home`) and the
    monthly e-mail summary (`enviar_relatorio`). Rendering, PDF generation
    and mail delivery are not modelled; each route yields the values it
    hands to its template. */
module Reports {
  import opened Wrappers
  import opened Calendar
  import opened Records
  import opened Totals
  import opened CategoryTotals
  import opened StableSort
  import opened ExpenseList
  import opened VehicleBreakdown
  import opened Charts
  import opened Fleet

  const PieTitle: string := "Distribuição de Gastos por Categoria"
  const BarTitle: string := "Comparativo: Receitas vs. Despesas"
  const BarLabels: seq<string> := ["Receitas", "Despesas"]

  /** `list(d.values())`: the values in key order. */
  function Values(d: Dict): (vs: seq<Cents>)
    requires d.Valid()
    ensures |vs| == |d.keys|
    ensures forall i :: 0 <= i < |vs| ==> vs[i] == d.entries[d.keys[i]]
  {
    seq(|d.keys|, i requires 0 <= i < |d.keys| => d.entries[d.keys[i]])
  }

  function RevenueDate(r: Revenue): Date
  {
    r.date
  }

  // ---------------------------------------------------------------------
  // The period report.

  /** Why `relatorios` flashes its error message instead of returning a
      PDF: a date that does not parse, or a fuel or maintenance row of the
      period whose vehicle is gone (`item.veiculo.placa` on None). */
  datatype ReportError = InvalidDate | MissingVehicle

  datatype PeriodReport = PeriodReport(
    summary: PeriodSummary,
    categories: Dict,
    expenses: seq<Entry>,
    revenues: seq<Revenue>,
    vehicles: seq<VehicleReport>,
    expenseChart: Option<Chart>,
    balanceChart: Option<Chart>)

  /** Every fuel and maintenance row of the period reaches a vehicle. */
  predicate PlatesResolve(t: Tables, p: Period)
  {
    && (forall f :: f in FuelsIn(t.fuels, p) ==> PlateOf(t.vehicles, f.vehicleId).Some?)
    && (forall m :: m in MaintenancesIn(t.maintenances, p) ==> PlateOf(t.vehicles, m.vehicleId).Some?)
  }

  /** What the report of the period `p` over the tables `t` is. */
  ghost predicate Describes(rep: PeriodReport, t: Tables, p: Period)
  {
    var s := Summarize(t, p);
    && rep.summary == s
    && rep.categories == CategoryMap(s.fuel, s.maintenance, GroupByCategory(ExpensesIn(t.expenses, p)))
    && IsStableSort(rep.expenses,
         Unsorted(FuelsIn(t.fuels, p), MaintenancesIn(t.maintenances, p), ExpensesIn(t.expenses, p), t.vehicles),
         EntryDate)
    && IsStableSort(rep.revenues, RevenuesIn(t.revenues, p), RevenueDate)
    && rep.vehicles == Breakdown(t.vehicles, t, p)
    && rep.expenseChart == PieChart(rep.categories.keys, Values(rep.categories), PieTitle)
    && rep.balanceChart == BarChart(BarLabels, [s.revenue, s.Expenses()], BarTitle)
  }

  /** The POST branch of `relatorios`, from the two parsed form dates (None
      for a date `strptime` rejects) to the report or the error. */
  method GenerateReport(start: Option<Date>, end: Option<Date>, t: Tables)
    returns (r: Result<PeriodReport, ReportError>)
    ensures start.None? || end.None? ==> r == Failure(InvalidDate)
    ensures start.Some? && end.Some? ==>
      var p := Interval(start.value, end.value);
      && (r.Success? <==> PlatesResolve(t, p))
      && (r.Failure? ==> r.error == MissingVehicle)
      && (r.Success? ==> Describes(r.value, t, p))
  {
    if start.None? || end.None? {
      return Failure(InvalidDate);
    }
    var p := Interval(start.value, end.value);
    var s := Summarize(t, p);
    var categories := BuildCategoryMap(s.fuel, s.maintenance, GroupByCategory(ExpensesIn(t.expenses, p)));
    var fs, ms, es := FuelsIn(t.fuels, p), MaintenancesIn(t.maintenances, p), ExpensesIn(t.expenses, p);
    if !PlatesResolve(t, p) {
      return Failure(MissingVehicle);
    }
    var expenses := BuildExpenseList(fs, ms, es, t.vehicles);
    var rs := RevenuesIn(t.revenues, p);
    var a := new Revenue[|rs|](i requires 0 <= i < |rs| => rs[i]);
    assert a[..] == rs;
    SortByDate(a, RevenueDate);
    var vehicles := BuildBreakdown(t, p);
    var pie := PieChart(categories.keys, Values(categories), PieTitle);
    var bar := BarChart(BarLabels, [s.revenue, s.Expenses()], BarTitle);
    r := Success(PeriodReport(s, categories, expenses, a[..], vehicles, pie, bar));
  }

  /** On data whose rows all point to existing vehicles the report never
      fails for a missing vehicle, whatever the period. */
  lemma LinkedDataReports(t: Tables, p: Period)
    requires Linked(t)
    ensures PlatesResolve(t, p)
  {
  }

  /** The figures of a report agree with each other: the expense list has
      one entry per row and adds up to the expense total, it is sorted by
      date, and with no negative amounts the category values add up to the
      expense total as well. */
  lemma ReportConsistent(rep: PeriodReport, t: Tables, p: Period)
    requires Describes(rep, t, p)
    ensures |rep.expenses| == |FuelsIn(t.fuels, p)| + |MaintenancesIn(t.maintenances, p)| + |ExpensesIn(t.expenses, p)|
    ensures Sum(rep.expenses, EntryValue) == rep.summary.Expenses()
    ensures SortedBy(rep.expenses, EntryDate) && SortedBy(rep.revenues, RevenueDate)
    ensures multiset(rep.revenues) == multiset(RevenuesIn(t.revenues, p))
    ensures (forall f :: f in t.fuels ==> f.total >= 0)
         && (forall m :: m in t.maintenances ==> m.cost >= 0)
         && (forall e :: e in t.expenses ==> e.value >= 0)
         ==> rep.categories.Total() == rep.summary.Expenses()
  {
    var fs, ms, es := FuelsIn(t.fuels, p), MaintenancesIn(t.maintenances, p), ExpensesIn(t.expenses, p);
    var u := Unsorted(fs, ms, es, t.vehicles);
    ExpenseListPermutation(rep.expenses, fs, ms, es, t.vehicles);
    SumPermutation(rep.expenses, u, EntryValue);
    UnsortedTotal(fs, ms, es, t.vehicles);
    SameDayOrderPermutation(rep.revenues, RevenuesIn(t.revenues, p), RevenueDate);
    CategoryValuesAddUp(t, p, rep.categories);
  }

  /** With no negative amounts, the category values of a period add up to
      the period's expense total. */
  lemma CategoryValuesAddUp(t: Tables, p: Period, d: Dict)
    requires d == CategoryMap(Summarize(t, p).fuel, Summarize(t, p).maintenance, GroupByCategory(ExpensesIn(t.expenses, p)))
    ensures (forall f :: f in t.fuels ==> f.total >= 0)
         && (forall m :: m in t.maintenances ==> m.cost >= 0)
         && (forall e :: e in t.expenses ==> e.value >= 0)
         ==> d.Total() == Summarize(t, p).Expenses()
  {
    if (forall f :: f in t.fuels ==> f.total >= 0)
      && (forall m :: m in t.maintenances ==> m.cost >= 0)
      && (forall e :: e in t.expenses ==> e.value >= 0)
    {
      var s := Summarize(t, p);
      var es := ExpensesIn(t.expenses, p);
      SumNonNegative(FuelsIn(t.fuels, p), (f: Fuel) => f.total);
      SumNonNegative(MaintenancesIn(t.maintenances, p), (m: Maintenance) => m.cost);
      CategoryMapTotal(s.fuel, s.maintenance, GroupByCategory(es), es);
    }
  }

  /** The pie chart is left out exactly when no category has a positive
      total; the bar chart exactly when revenue and expenses are both 0. */
  lemma ReportCharts(rep: PeriodReport, t: Tables, p: Period)
    requires Describes(rep, t, p)
    ensures rep.expenseChart.None? <==>
      && rep.summary.fuel <= 0
      && rep.summary.maintenance <= 0
      && (forall c :: CategorySum(ExpensesIn(t.expenses, p), c) <= 0)
    ensures rep.expenseChart.Some? ==> rep.expenseChart.value.labels == rep.categories.keys
    ensures rep.balanceChart.None? <==> rep.summary.revenue == 0 && rep.summary.Expenses() == 0
  {
    var s := rep.summary;
    PieChartAbsent(s.fuel, s.maintenance, ExpensesIn(t.expenses, p), rep.categories);
    var data := [s.revenue, s.Expenses()];
    assert data[0] == s.revenue && data[1] == s.Expenses();
  }

  /** The category pie of a period is left out iff the map has no key,
      which is iff neither fixed bucket nor any category is positive. */
  lemma PieChartAbsent(fuel: Cents, maintenance: Cents, es: seq<GeneralExpense>, d: Dict)
    requires d == CategoryMap(fuel, maintenance, GroupByCategory(es))
    ensures PieChart(d.keys, Values(d), PieTitle).None? <==> d.keys == []
    ensures d.keys == [] <==>
      fuel <= 0 && maintenance <= 0 && forall c :: CategorySum(es, c) <= 0
  {
    var gs := GroupByCategory(es);
    if d.keys == [] {
      forall c ensures CategorySum(es, c) <= 0 {
        CategoryMapContents(fuel, maintenance, gs, es, c);
      }
      CategoryMapContents(fuel, maintenance, gs, es, FuelCategory);
      CategoryMapContents(fuel, maintenance, gs, es, MaintenanceCategory);
    } else {
      CategoryMapContents(fuel, maintenance, gs, es, d.keys[0]);
    }
  }

  /** An interval whose end precedes its start is accepted and gives an
      empty report: every total 0, no category, no row, no vehicle and no
      chart. */
  lemma InvertedIntervalReport(rep: PeriodReport, t: Tables, start: Date, end: Date)
    requires Lt(end, start)
    requires Describes(rep, t, Interval(start, end))
    ensures PlatesResolve(t, Interval(start, end))
    ensures rep.summary == PeriodSummary(0, 0, 0, 0)
    ensures rep.categories.keys == []
    ensures rep.expenses == [] && rep.revenues == [] && rep.vehicles == []
    ensures rep.expenseChart.None? && rep.balanceChart.None?
  {
    var p := Interval(start, end);
    InvertedIntervalSummary(t, start, end);
    InvertedIntervalSelects(t, start, end);
    var fs, ms, es, rs := FuelsIn(t.fuels, p), MaintenancesIn(t.maintenances, p), ExpensesIn(t.expenses, p), RevenuesIn(t.revenues, p);
    ExpenseListPermutation(rep.expenses, fs, ms, es, t.vehicles);
    SameDayOrderPermutation(rep.revenues, rs, RevenueDate);
    NoCategories(rep.summary, es, rep.categories, rep.expenseChart, rep.balanceChart);
  }

  lemma NoCategories(s: PeriodSummary, es: seq<GeneralExpense>, d: Dict, pie: Option<Chart>, bar: Option<Chart>)
    requires s == PeriodSummary(0, 0, 0, 0) && es == []
    requires d == CategoryMap(s.fuel, s.maintenance, GroupByCategory(es))
    requires pie == PieChart(d.keys, Values(d), PieTitle)
    requires bar == BarChart(BarLabels, [s.revenue, s.Expenses()], BarTitle)
    ensures d.keys == [] && pie.None? && bar.None?
  {
    assert DistinctCategories(es) == [];
    assert GroupByCategory(es) == [];
    assert Seed(0, 0) == Empty;
  }

  lemma InvertedIntervalSelects(t: Tables, start: Date, end: Date)
    requires Lt(end, start)
    ensures var p := Interval(start, end);
      && FuelsIn(t.fuels, p) == [] && MaintenancesIn(t.maintenances, p) == []
      && ExpensesIn(t.expenses, p) == [] && RevenuesIn(t.revenues, p) == []
      && Breakdown(t.vehicles, t, p) == []
  {
    forall d: Date ensures !Interval(start, end).Contains(d) {
      IntervalInclusive(start, end, d);
    }
    NothingSelected(t, Interval(start, end));
  }

  /** A period that contains no date selects no row and no vehicle. */
  lemma NothingSelected(t: Tables, p: Period)
    requires forall d: Date :: !p.Contains(d)
    ensures FuelsIn(t.fuels, p) == [] && MaintenancesIn(t.maintenances, p) == []
    ensures ExpensesIn(t.expenses, p) == [] && RevenuesIn(t.revenues, p) == []
    ensures Breakdown(t.vehicles, t, p) == []
  {
    NoMembers(FuelsIn(t.fuels, p));
    NoMembers(MaintenancesIn(t.maintenances, p));
    NoMembers(ExpensesIn(t.expenses, p));
    NoMembers(RevenuesIn(t.revenues, p));
    forall v | v in t.vehicles ensures !Active(v, t, p) {
      NoMembers(VehicleFuels(t.fuels, v.id, p));
      NoMembers(VehicleMaintenances(t.maintenances, v.id, p));
      NoMembers(VehicleRevenues(t.revenues, v.id, p));
    }
    BreakdownLength(t.vehicles, t, p);
  }

  lemma NoMembers<T>(s: seq<T>)
    ensures (forall x :: x !in s) ==> s == []
  {
    if s != [] {
      assert s[0] in s;
    }
  }

  /** The report is determined by the period and the data: two reports
      that both describe it are the same report. */
  lemma ReportUnique(r1: PeriodReport, r2: PeriodReport, t: Tables, p: Period)
    requires Describes(r1, t, p) && Describes(r2, t, p)
    ensures r1 == r2
  {
    var u := Unsorted(FuelsIn(t.fuels, p), MaintenancesIn(t.maintenances, p), ExpensesIn(t.expenses, p), t.vehicles);
    var rs := RevenuesIn(t.revenues, p);
    SameDayOrderTransitive(r1.expenses, u, r2.expenses, EntryDate);
    StableSortUnique(r1.expenses, r2.expenses, EntryDate);
    SameDayOrderTransitive(r1.revenues, rs, r2.revenues, RevenueDate);
    StableSortUnique(r1.revenues, r2.revenues, RevenueDate);
  }
}
