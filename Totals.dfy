/** The period totals of the reports: the SQL `filter(... between ...)` and
    `func.sum(...)` queries, written as filters and sums over the rows, with
    an empty sum giving 0 as `... .scalar() or 0.0` does. */
module Totals {
  import opened Calendar
  import opened Records

  /** The rows of `s` that satisfy `keep`, in their original order. */
  function Filter<T(!new)>(s: seq<T>, keep: T -> bool): (r: seq<T>)
    ensures |r| <= |s|
    ensures forall x :: x in r <==> x in s && keep(x)
  {
    if s == [] then []
    else if keep(s[0]) then [s[0]] + Filter(s[1..], keep)
    else Filter(s[1..], keep)
  }

  /** The sum of `value` over the rows of `s`; 0 for no rows. */
  function Sum<T>(s: seq<T>, value: T -> int): int
  {
    if s == [] then 0 else value(s[0]) + Sum(s[1..], value)
  }

  lemma {:induction false} FilterAppend<T(!new)>(a: seq<T>, b: seq<T>, keep: T -> bool)
    ensures Filter(a + b, keep) == Filter(a, keep) + Filter(b, keep)
  {
    if a != [] {
      assert (a + b)[1..] == a[1..] + b;
      FilterAppend(a[1..], b, keep);
    } else {
      assert a + b == b;
    }
  }

  lemma {:induction false} SumAppend<T>(a: seq<T>, b: seq<T>, value: T -> int)
    ensures Sum(a + b, value) == Sum(a, value) + Sum(b, value)
  {
    if a != [] {
      assert (a + b)[1..] == a[1..] + b;
      SumAppend(a[1..], b, value);
    } else {
      assert a + b == b;
    }
  }

  /** A sum does not depend on the order of the rows. */
  lemma {:induction false} SumPermutation<T>(a: seq<T>, b: seq<T>, value: T -> int)
    requires multiset(a) == multiset(b)
    ensures Sum(a, value) == Sum(b, value)
    decreases |a|
  {
    if a == [] {
      assert |b| == |multiset(b)| == 0;
    } else {
      var k := IndexOf(b, a[0]);
      var rest := b[..k] + b[k + 1..];
      SumWithout(b, k, value);
      RestsPermuted(a, b, k);
      SumPermutation(a[1..], rest, value);
    }
  }

  lemma RestsPermuted<T>(a: seq<T>, b: seq<T>, k: int)
    requires multiset(a) == multiset(b)
    requires 0 < |a| && 0 <= k < |b| && b[k] == a[0]
    ensures multiset(a[1..]) == multiset(b[..k] + b[k + 1..])
  {
    MultisetWithout(b, k);
    MultisetWithout(a, 0);
    assert a[..0] + a[1..] == a[1..];
  }

  lemma IndexOf<T>(b: seq<T>, x: T) returns (k: int)
    requires x in multiset(b)
    ensures 0 <= k < |b| && b[k] == x
  {
    k :| 0 <= k < |b| && b[k] == x;
  }

  lemma SumWithout<T>(b: seq<T>, k: int, value: T -> int)
    requires 0 <= k < |b|
    ensures Sum(b, value) == value(b[k]) + Sum(b[..k] + b[k + 1..], value)
  {
    assert b == b[..k] + ([b[k]] + b[k + 1..]);
    SumAppend(b[..k], [b[k]] + b[k + 1..], value);
    SumAppend(b[..k], b[k + 1..], value);
    assert ([b[k]] + b[k + 1..])[1..] == b[k + 1..];
  }

  lemma MultisetWithout<T>(b: seq<T>, k: int)
    requires 0 <= k < |b|
    ensures multiset(b[..k] + b[k + 1..]) == multiset(b) - multiset{b[k]}
  {
    assert b == b[..k] + [b[k]] + b[k + 1..];
  }

  /** A filter that keeps nothing gives no rows. */
  lemma {:induction false} FilterNothing<T(!new)>(s: seq<T>, keep: T -> bool)
    requires forall x :: x in s ==> !keep(x)
    ensures Filter(s, keep) == []
  {
    if s != [] {
      assert s[0] in s;
      FilterNothing(s[1..], keep);
    }
  }

  lemma {:induction false} SumNonNegative<T>(s: seq<T>, value: T -> int)
    requires forall x :: x in s ==> value(x) >= 0
    ensures Sum(s, value) >= 0
  {
    if s != [] {
      SumNonNegative(s[1..], value);
    }
  }

  // The four `between` / `extract` queries of the reports.

  function FuelsIn(fs: seq<Fuel>, p: Period): seq<Fuel>
  {
    Filter(fs, (f: Fuel) => p.Contains(f.date))
  }

  function MaintenancesIn(ms: seq<Maintenance>, p: Period): seq<Maintenance>
  {
    Filter(ms, (m: Maintenance) => p.Contains(m.date))
  }

  function ExpensesIn(es: seq<GeneralExpense>, p: Period): seq<GeneralExpense>
  {
    Filter(es, (e: GeneralExpense) => p.Contains(e.date))
  }

  function RevenuesIn(rs: seq<Revenue>, p: Period): seq<Revenue>
  {
    Filter(rs, (r: Revenue) => p.Contains(r.date))
  }

  // The four `func.sum(...)` columns.

  function FuelCost(fs: seq<Fuel>): Cents
  {
    Sum(fs, (f: Fuel) => f.total)
  }

  function MaintenanceCost(ms: seq<Maintenance>): Cents
  {
    Sum(ms, (m: Maintenance) => m.cost)
  }

  function ExpenseCost(es: seq<GeneralExpense>): Cents
  {
    Sum(es, (e: GeneralExpense) => e.value)
  }

  function RevenueAmount(rs: seq<Revenue>): Cents
  {
    Sum(rs, (r: Revenue) => r.value)
  }

  /** The four totals of a period, with the expense total and the balance
      of the report's `resumo_financeiro`. */
  datatype PeriodSummary = PeriodSummary(revenue: Cents, fuel: Cents, maintenance: Cents, general: Cents)
  {
    function Expenses(): Cents
    {
      fuel + maintenance + general
    }

    function Balance(): Cents
    {
      revenue - Expenses()
    }
  }

  function Summarize(t: Tables, p: Period): PeriodSummary
  {
    PeriodSummary(
      RevenueAmount(RevenuesIn(t.revenues, p)),
      FuelCost(FuelsIn(t.fuels, p)),
      MaintenanceCost(MaintenancesIn(t.maintenances, p)),
      ExpenseCost(ExpensesIn(t.expenses, p)))
  }

  /** No row of the period: every total, the expense total and the balance
      are 0 (never a missing value). */
  predicate NoRowsIn(t: Tables, p: Period)
  {
    && (forall f :: f in t.fuels ==> !p.Contains(f.date))
    && (forall m :: m in t.maintenances ==> !p.Contains(m.date))
    && (forall e :: e in t.expenses ==> !p.Contains(e.date))
    && (forall r :: r in t.revenues ==> !p.Contains(r.date))
  }

  lemma EmptyPeriodSummary(t: Tables, p: Period)
    requires NoRowsIn(t, p)
    ensures Summarize(t, p) == PeriodSummary(0, 0, 0, 0)
    ensures Summarize(t, p).Expenses() == 0 && Summarize(t, p).Balance() == 0
  {
    FilterNothing(t.fuels, (f: Fuel) => p.Contains(f.date));
    FilterNothing(t.maintenances, (m: Maintenance) => p.Contains(m.date));
    FilterNothing(t.expenses, (e: GeneralExpense) => p.Contains(e.date));
    FilterNothing(t.revenues, (r: Revenue) => p.Contains(r.date));
  }

  /** An interval whose end precedes its start is not rejected: it matches
      nothing and every total is 0. */
  lemma InvertedIntervalSummary(t: Tables, s: Date, e: Date)
    requires Lt(e, s)
    ensures Summarize(t, Interval(s, e)) == PeriodSummary(0, 0, 0, 0)
  {
    forall d: Date ensures !Interval(s, e).Contains(d) {
      IntervalInclusive(s, e, d);
    }
    EmptyPeriodSummary(t, Interval(s, e));
  }

  /** A row dated on either end of a well-formed interval is counted. */
  lemma BoundaryRowsCounted(t: Tables, s: Date, e: Date)
    requires Le(s, e)
    ensures forall f :: f in t.fuels && (f.date == s || f.date == e) ==> f in FuelsIn(t.fuels, Interval(s, e))
    ensures forall m :: m in t.maintenances && (m.date == s || m.date == e) ==> m in MaintenancesIn(t.maintenances, Interval(s, e))
    ensures forall x :: x in t.expenses && (x.date == s || x.date == e) ==> x in ExpensesIn(t.expenses, Interval(s, e))
    ensures forall r :: r in t.revenues && (r.date == s || r.date == e) ==> r in RevenuesIn(t.revenues, Interval(s, e))
  {
    IntervalInclusive(s, e, s);
  }

  /** Two sets of rows side by side. */
  function Combine(a: Tables, b: Tables): Tables
  {
    Tables(a.vehicles + b.vehicles, a.employees + b.employees, a.fuels + b.fuels,
           a.maintenances + b.maintenances, a.expenses + b.expenses, a.revenues + b.revenues)
  }

  /** Totals are additive: the totals over two sets of rows are the sums of
      the totals over each, and so are the expense total and the balance. */
  lemma SummaryAdditive(a: Tables, b: Tables, p: Period)
    ensures var s, sa, sb := Summarize(Combine(a, b), p), Summarize(a, p), Summarize(b, p);
      && s.revenue == sa.revenue + sb.revenue
      && s.fuel == sa.fuel + sb.fuel
      && s.maintenance == sa.maintenance + sb.maintenance
      && s.general == sa.general + sb.general
      && s.Expenses() == sa.Expenses() + sb.Expenses()
      && s.Balance() == sa.Balance() + sb.Balance()
  {
    var inF := (f: Fuel) => p.Contains(f.date);
    var inM := (m: Maintenance) => p.Contains(m.date);
    var inE := (e: GeneralExpense) => p.Contains(e.date);
    var inR := (r: Revenue) => p.Contains(r.date);
    FilterAppend(a.fuels, b.fuels, inF);
    FilterAppend(a.maintenances, b.maintenances, inM);
    FilterAppend(a.expenses, b.expenses, inE);
    FilterAppend(a.revenues, b.revenues, inR);
    SumAppend(FuelsIn(a.fuels, p), FuelsIn(b.fuels, p), (f: Fuel) => f.total);
    SumAppend(MaintenancesIn(a.maintenances, p), MaintenancesIn(b.maintenances, p), (m: Maintenance) => m.cost);
    SumAppend(ExpensesIn(a.expenses, p), ExpensesIn(b.expenses, p), (e: GeneralExpense) => e.value);
    SumAppend(RevenuesIn(a.revenues, p), RevenuesIn(b.revenues, p), (r: Revenue) => r.value);
  }

  /** Two selections that agree on every row select the same rows. */
  lemma {:induction false} FilterCongruent<T(!new)>(s: seq<T>, p: T -> bool, q: T -> bool)
    requires forall x :: x in s ==> p(x) == q(x)
    ensures Filter(s, p) == Filter(s, q)
  {
    if s != [] {
      assert s[0] in s;
      FilterCongruent(s[1..], p, q);
    }
  }

  /** Every row carries a date `datetime.date` can hold. */
  predicate DatesValid(t: Tables)
  {
    && (forall f :: f in t.fuels ==> Valid(f.date))
    && (forall m :: m in t.maintenances ==> Valid(m.date))
    && (forall e :: e in t.expenses ==> Valid(e.date))
    && (forall r :: r in t.revenues ==> Valid(r.date))
  }

  /** The `extract(year) / extract(month)` selection of the dashboard and
      of the e-mail picks the same rows as the report's `between` from the
      first to the last day of that month. */
  lemma MonthAsInterval(t: Tables, y: int, m: int)
    requires 1 <= m <= 12
    requires DatesValid(t)
    ensures var i := Interval(Date(y, m, 1), Date(y, m, DaysInMonth(y, m)));
      && FuelsIn(t.fuels, Month(y, m)) == FuelsIn(t.fuels, i)
      && MaintenancesIn(t.maintenances, Month(y, m)) == MaintenancesIn(t.maintenances, i)
      && ExpensesIn(t.expenses, Month(y, m)) == ExpensesIn(t.expenses, i)
      && RevenuesIn(t.revenues, Month(y, m)) == RevenuesIn(t.revenues, i)
      && Summarize(t, Month(y, m)) == Summarize(t, i)
  {
    var mo, i := Month(y, m), Interval(Date(y, m, 1), Date(y, m, DaysInMonth(y, m)));
    forall d: Date | Valid(d) ensures mo.Contains(d) == i.Contains(d) {
      MonthIsInterval(y, m, d);
    }
    FilterCongruent(t.fuels, (f: Fuel) => mo.Contains(f.date), (f: Fuel) => i.Contains(f.date));
    FilterCongruent(t.maintenances, (x: Maintenance) => mo.Contains(x.date), (x: Maintenance) => i.Contains(x.date));
    FilterCongruent(t.expenses, (e: GeneralExpense) => mo.Contains(e.date), (e: GeneralExpense) => i.Contains(e.date));
    FilterCongruent(t.revenues, (r: Revenue) => mo.Contains(r.date), (r: Revenue) => i.Contains(r.date));
  }
}
