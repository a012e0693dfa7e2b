/** The unified expense list of the period report: one entry per fuel,
    maintenance and general-expense row of the period, appended in that
    order and then sorted by date with Python's stable sort. */
module ExpenseList {
  import opened Wrappers
  import opened Calendar
  import opened Records
  import opened Totals
  import opened CategoryTotals
  import opened StableSort

  /** The `descricao` column: litres for fuel (printed as "%.2fL"), free
      text otherwise. */
  datatype Description = Liters(centiliters: int) | Text(text: string)

  /** One dict of `lista_despesas_unificada`. */
  datatype Entry = Entry(date: Date, kind: string, description: Description, plate: Option<string>, value: Cents)

  function EntryDate(e: Entry): Date
  {
    e.date
  }

  function FuelEntry(f: Fuel, vs: seq<Vehicle>): Entry
  {
    Entry(f.date, FuelCategory, Liters(f.centiliters), PlateOf(vs, f.vehicleId), f.total)
  }

  function MaintenanceEntry(m: Maintenance, vs: seq<Vehicle>): Entry
  {
    Entry(m.date, MaintenanceCategory, Text(m.service), PlateOf(vs, m.vehicleId), m.cost)
  }

  function ExpenseEntry(e: GeneralExpense): Entry
  {
    Entry(e.date, e.category, Text(e.description), None, e.value)
  }

  function FuelEntries(fs: seq<Fuel>, vs: seq<Vehicle>): seq<Entry>
  {
    seq(|fs|, i requires 0 <= i < |fs| => FuelEntry(fs[i], vs))
  }

  function MaintenanceEntries(ms: seq<Maintenance>, vs: seq<Vehicle>): seq<Entry>
  {
    seq(|ms|, i requires 0 <= i < |ms| => MaintenanceEntry(ms[i], vs))
  }

  function ExpenseEntries(es: seq<GeneralExpense>): seq<Entry>
  {
    seq(|es|, i requires 0 <= i < |es| => ExpenseEntry(es[i]))
  }

  /** The list before sorting. */
  function Unsorted(fs: seq<Fuel>, ms: seq<Maintenance>, es: seq<GeneralExpense>, vs: seq<Vehicle>): seq<Entry>
  {
    FuelEntries(fs, vs) + MaintenanceEntries(ms, vs) + ExpenseEntries(es)
  }

  /** The three append loops. */
  method BuildUnsorted(fs: seq<Fuel>, ms: seq<Maintenance>, es: seq<GeneralExpense>, vs: seq<Vehicle>)
    returns (r: seq<Entry>)
    ensures r == Unsorted(fs, ms, es, vs)
  {
    r := [];
    for i := 0 to |fs|
      invariant r == FuelEntries(fs[..i], vs)
    {
      r := r + [FuelEntry(fs[i], vs)];
    }
    assert fs[..|fs|] == fs;
    for i := 0 to |ms|
      invariant r == FuelEntries(fs, vs) + MaintenanceEntries(ms[..i], vs)
    {
      r := r + [MaintenanceEntry(ms[i], vs)];
    }
    assert ms[..|ms|] == ms;
    for i := 0 to |es|
      invariant r == FuelEntries(fs, vs) + MaintenanceEntries(ms, vs) + ExpenseEntries(es[..i])
    {
      r := r + [ExpenseEntry(es[i])];
    }
    assert es[..|es|] == es;
  }

  /** `lista_despesas_unificada` after `.sort(key=lambda x: x['data'])`. */
  method BuildExpenseList(fs: seq<Fuel>, ms: seq<Maintenance>, es: seq<GeneralExpense>, vs: seq<Vehicle>)
    returns (r: seq<Entry>)
    ensures IsStableSort(r, Unsorted(fs, ms, es, vs), EntryDate)
  {
    var list := BuildUnsorted(fs, ms, es, vs);
    var a := new Entry[|list|](i requires 0 <= i < |list| => list[i]);
    assert a[..] == list;
    SortByDate(a, EntryDate);
    r := a[..];
  }

  // Properties of the list.

  /** Every row gives one entry, in place: fuel rows first, tagged
      'Combustível' with the vehicle's plate, then maintenance rows tagged
      'Manutenção', then general expenses tagged with their own category and
      no plate. */
  lemma UnsortedShape(fs: seq<Fuel>, ms: seq<Maintenance>, es: seq<GeneralExpense>, vs: seq<Vehicle>)
    ensures var u := Unsorted(fs, ms, es, vs);
      && |u| == |fs| + |ms| + |es|
      && (forall i :: 0 <= i < |fs| ==>
            u[i].kind == FuelCategory && u[i].date == fs[i].date && u[i].value == fs[i].total
            && u[i].plate == PlateOf(vs, fs[i].vehicleId))
      && (forall i :: 0 <= i < |ms| ==>
            u[|fs| + i].kind == MaintenanceCategory && u[|fs| + i].date == ms[i].date
            && u[|fs| + i].value == ms[i].cost && u[|fs| + i].plate == PlateOf(vs, ms[i].vehicleId))
      && (forall i :: 0 <= i < |es| ==>
            u[|fs| + |ms| + i].kind == es[i].category && u[|fs| + |ms| + i].date == es[i].date
            && u[|fs| + |ms| + i].value == es[i].value && u[|fs| + |ms| + i].plate == None)
  {
  }

  function EntryValue(e: Entry): Cents
  {
    e.value
  }

  lemma {:induction false} FuelEntriesCost(fs: seq<Fuel>, vs: seq<Vehicle>)
    ensures Sum(FuelEntries(fs, vs), EntryValue) == FuelCost(fs)
  {
    if fs != [] {
      assert FuelEntries(fs, vs)[1..] == FuelEntries(fs[1..], vs);
      FuelEntriesCost(fs[1..], vs);
    }
  }

  lemma {:induction false} MaintenanceEntriesCost(ms: seq<Maintenance>, vs: seq<Vehicle>)
    ensures Sum(MaintenanceEntries(ms, vs), EntryValue) == MaintenanceCost(ms)
  {
    if ms != [] {
      assert MaintenanceEntries(ms, vs)[1..] == MaintenanceEntries(ms[1..], vs);
      MaintenanceEntriesCost(ms[1..], vs);
    }
  }

  lemma {:induction false} ExpenseEntriesCost(es: seq<GeneralExpense>)
    ensures Sum(ExpenseEntries(es), EntryValue) == ExpenseCost(es)
  {
    if es != [] {
      assert ExpenseEntries(es)[1..] == ExpenseEntries(es[1..]);
      ExpenseEntriesCost(es[1..]);
    }
  }

  /** The entries add up to fuel plus maintenance plus general expenses. */
  lemma UnsortedTotal(fs: seq<Fuel>, ms: seq<Maintenance>, es: seq<GeneralExpense>, vs: seq<Vehicle>)
    ensures Sum(Unsorted(fs, ms, es, vs), EntryValue) == FuelCost(fs) + MaintenanceCost(ms) + ExpenseCost(es)
  {
    var f, m, e := FuelEntries(fs, vs), MaintenanceEntries(ms, vs), ExpenseEntries(es);
    SumAppend(f + m, e, EntryValue);
    SumAppend(f, m, EntryValue);
    FuelEntriesCost(fs, vs);
    MaintenanceEntriesCost(ms, vs);
    ExpenseEntriesCost(es);
  }

  /** The sorted list is a permutation of the rows, with one entry each. */
  lemma ExpenseListPermutation(r: seq<Entry>, fs: seq<Fuel>, ms: seq<Maintenance>, es: seq<GeneralExpense>, vs: seq<Vehicle>)
    requires IsStableSort(r, Unsorted(fs, ms, es, vs), EntryDate)
    ensures multiset(r) == multiset(Unsorted(fs, ms, es, vs))
    ensures |r| == |fs| + |ms| + |es|
  {
    SameDayOrderPermutation(r, Unsorted(fs, ms, es, vs), EntryDate);
  }

  /** On any one day the sorted list holds the fuel entries, then the
      maintenance entries, then the general expenses, each in query order. */
  lemma ExpenseListSameDay(r: seq<Entry>, fs: seq<Fuel>, ms: seq<Maintenance>, es: seq<GeneralExpense>, vs: seq<Vehicle>, d: Date)
    requires IsStableSort(r, Unsorted(fs, ms, es, vs), EntryDate)
    ensures OnDate(r, EntryDate, d)
         == OnDate(FuelEntries(fs, vs), EntryDate, d)
          + OnDate(MaintenanceEntries(ms, vs), EntryDate, d)
          + OnDate(ExpenseEntries(es), EntryDate, d)
  {
    var f, m, e := FuelEntries(fs, vs), MaintenanceEntries(ms, vs), ExpenseEntries(es);
    assert OnDate(r, EntryDate, d) == OnDate(f + m + e, EntryDate, d);
    OnDateAppend(f + m, e, EntryDate, d);
    OnDateAppend(f, m, EntryDate, d);
  }

  /** When every fuel and maintenance row points at an existing vehicle,
      every fuel and maintenance entry carries a plate. */
  lemma LinkedRowsHavePlates(fs: seq<Fuel>, ms: seq<Maintenance>, es: seq<GeneralExpense>, vs: seq<Vehicle>)
    requires forall f :: f in fs ==> PlateOf(vs, f.vehicleId).Some?
    requires forall m :: m in ms ==> PlateOf(vs, m.vehicleId).Some?
    ensures forall i :: 0 <= i < |fs| + |ms| ==> Unsorted(fs, ms, es, vs)[i].plate.Some?
  {
    var u := Unsorted(fs, ms, es, vs);
    forall i | 0 <= i < |fs| + |ms| ensures u[i].plate.Some? {
      if i < |fs| {
        assert fs[i] in fs;
      } else {
        assert ms[i - |fs|] in ms;
      }
    }
  }
}
