/** The home page (`home`): counts of vehicles and active employees, and
    the spending, revenue and balance of the current month, with the
    spending broken down by category for the dashboard chart. The current
    year and month are parameters. */
module Dashboard {
  import opened Calendar
  import opened Records
  import opened Totals
  import opened CategoryTotals
  import opened Reports

  /** The values `home` hands to its template. */
  datatype Overview = Overview(
    vehicleCount: nat, activeEmployees: nat,
    monthExpenses: Cents, monthRevenue: Cents, monthBalance: Cents,
    chartLabels: seq<string>, chartData: seq<Cents>)

  /** `Funcionario.query.filter_by(ativo=True)` */
  function ActiveEmployees(es: seq<Employee>): seq<Employee>
  {
    Filter(es, (e: Employee) => e.active)
  }

  /** The category dictionary of the month. */
  function MonthCategories(t: Tables, year: int, month: int): (d: Dict)
    ensures d.Valid()
  {
    var p := Month(year, month);
    var s := Summarize(t, p);
    CategoryMap(s.fuel, s.maintenance, GroupByCategory(ExpensesIn(t.expenses, p)))
  }

  /** The overview, with the month's spending taken as the sum of the
      dictionary's values (`sum(gastos_por_categoria.values())`). */
  function OverviewFor(t: Tables, year: int, month: int): Overview
  {
    var d := MonthCategories(t, year, month);
    var revenue := Summarize(t, Month(year, month)).revenue;
    Overview(|t.vehicles|, |ActiveEmployees(t.employees)|,
             d.Total(), revenue, revenue - d.Total(), d.keys, Values(d))
  }

  method BuildOverview(t: Tables, year: int, month: int) returns (o: Overview)
    ensures o == OverviewFor(t, year, month)
  {
    var p := Month(year, month);
    var s := Summarize(t, p);
    var d := BuildCategoryMap(s.fuel, s.maintenance, GroupByCategory(ExpensesIn(t.expenses, p)));
    var spent := SumValues(d);
    o := Overview(|t.vehicles|, |ActiveEmployees(t.employees)|,
                  spent, s.revenue, s.revenue - spent, d.keys, Values(d));
  }

  /** `sum(d.values())` */
  method SumValues(d: Dict) returns (total: Cents)
    requires d.Valid()
    ensures total == d.Total()
  {
    total := 0;
    for i := 0 to |d.keys|
      invariant total == SumOver(d.keys[..i], d.entries)
    {
      assert d.keys[..i + 1][..i] == d.keys[..i];
      total := total + d.entries[d.keys[i]];
    }
    assert d.keys[..|d.keys|] == d.keys;
  }

  /** Each chart bar is one category with its positive total, and every
      category of the month with a positive total has its bar. */
  lemma OverviewChart(t: Tables, year: int, month: int, k: string)
    ensures var o := OverviewFor(t, year, month);
      var s := Summarize(t, Month(year, month));
      && |o.chartLabels| == |o.chartData|
      && Distinct(o.chartLabels)
      && (forall i :: 0 <= i < |o.chartData| ==> o.chartData[i] > 0)
      && (k in o.chartLabels <==>
            (k == FuelCategory && s.fuel > 0)
            || (k == MaintenanceCategory && s.maintenance > 0)
            || CategorySum(ExpensesIn(t.expenses, Month(year, month)), k) > 0)
  {
    var p := Month(year, month);
    var s := Summarize(t, p);
    var es := ExpensesIn(t.expenses, p);
    CategoryMapContents(s.fuel, s.maintenance, GroupByCategory(es), es, k);
  }

  /** With no negative amounts, the dashboard's spending is the month's
      expense total (fuel plus maintenance plus general expenses) and its
      balance the month's balance. */
  lemma OverviewTotals(t: Tables, year: int, month: int)
    requires forall f :: f in t.fuels ==> f.total >= 0
    requires forall m :: m in t.maintenances ==> m.cost >= 0
    requires forall e :: e in t.expenses ==> e.value >= 0
    ensures OverviewFor(t, year, month).monthExpenses == Summarize(t, Month(year, month)).Expenses()
    ensures OverviewFor(t, year, month).monthBalance == Summarize(t, Month(year, month)).Balance()
  {
    OverviewSpending(t, year, month);
    CategoryValuesAddUp(t, Month(year, month), MonthCategories(t, year, month));
  }

  lemma OverviewSpending(t: Tables, year: int, month: int)
    ensures var o := OverviewFor(t, year, month);
      && o.monthExpenses == MonthCategories(t, year, month).Total()
      && o.monthBalance == Summarize(t, Month(year, month)).revenue - o.monthExpenses
  {
  }

  /** One fuel purchase of 100.00 and one refund of 30.00 entered as a
      negative general expense, both in January 2024. */
  const RefundExample: Tables := Tables([], [],
    [Fuel(1, Date(2024, 1, 10), 4000, 10000, 1000, 1, 1)], [],
    [GeneralExpense(1, Date(2024, 1, 12), "Estorno", "Outros", -3000)], [])

  /** A category whose month sum is negative is left out of the dictionary,
      so the dashboard shows more spending than the period report of the
      same month. */
  lemma NegativeCategoryNotCounted()
    ensures OverviewFor(RefundExample, 2024, 1).monthExpenses == 10000
    ensures Summarize(RefundExample, Month(2024, 1)).Expenses() == 7000
  {
    RefundExampleRows();
    RefundExampleCategories();
    OverviewSpending(RefundExample, 2024, 1);
  }

  lemma RefundExampleRows()
    ensures FuelsIn(RefundExample.fuels, Month(2024, 1)) == RefundExample.fuels
    ensures ExpensesIn(RefundExample.expenses, Month(2024, 1)) == RefundExample.expenses
    ensures Summarize(RefundExample, Month(2024, 1)) == PeriodSummary(0, 10000, 0, -3000)
  {
    var t, p := RefundExample, Month(2024, 1);
    assert FuelsIn(t.fuels, p) == t.fuels;
    assert ExpensesIn(t.expenses, p) == t.expenses;
  }

  lemma RefundExampleCategories()
    ensures MonthCategories(RefundExample, 2024, 1).Total() == 10000
  {
    RefundExampleRows();
    var es := RefundExample.expenses;
    assert DistinctCategories(es) == ["Outros"];
    assert GroupByCategory(es) == [Group("Outros", -3000)];
    var d := Seed(10000, 0);
    assert d == Dict([FuelCategory], map[FuelCategory := 10000]);
    assert AddGroups(d, [Group("Outros", -3000)]) == d;
    assert d.Total() == 10000;
  }
}
