/** The "spending by category" dictionary of the period report and of the
    dashboard: a fixed bucket for fuel, a fixed bucket for maintenance, and
    one bucket per general-expense category from a SQL `group_by`, where a
    category spelled like a fixed bucket is merged into it and no bucket
    with a non-positive total is ever created. */
module CategoryTotals {
  import opened Records
  import opened Totals

  const FuelCategory: string := "Combustível"
  const MaintenanceCategory: string := "Manutenção"

  predicate Distinct(s: seq<string>)
  {
    forall i, j :: 0 <= i < j < |s| ==> s[i] != s[j]
  }

  function Pos(x: int): int
  {
    if x > 0 then x else 0
  }

  /** A Python dict from category to cents: its keys in insertion order,
      which is the order of the chart labels, and its entries. */
  datatype Dict = Dict(keys: seq<string>, entries: map<string, Cents>)
  {
    predicate Valid()
    {
      && Distinct(keys)
      && (forall k :: k in entries ==> k in keys)
      && (forall k :: k in keys ==> k in entries)
    }

    /** `d.get(k, 0)` */
    function Get(k: string): Cents
    {
      if k in entries then entries[k] else 0
    }

    /** `d[k] = v`: an existing key keeps its place, a new key goes last. */
    function Put(k: string, v: Cents): (d: Dict)
      requires Valid()
      ensures d.Valid()
      ensures d.entries == entries[k := v]
      ensures d.keys == if k in keys then keys else keys + [k]
    {
      if k in keys then Dict(keys, entries[k := v]) else Dict(keys + [k], entries[k := v])
    }

    /** `sum(d.values())` */
    function Total(): Cents
      requires Valid()
    {
      SumOver(keys, entries)
    }
  }

  const Empty: Dict := Dict([], map[])

  /** The entries of `m` at the keys `ks`, added up in key order. */
  function SumOver(ks: seq<string>, m: map<string, Cents>): Cents
    requires forall k :: k in ks ==> k in m
  {
    if ks == [] then 0 else SumOver(ks[..|ks| - 1], m) + m[ks[|ks| - 1]]
  }

  lemma {:induction false} SumOverFrame(ks: seq<string>, m: map<string, Cents>, k: string, v: Cents)
    requires forall j :: j in ks ==> j in m
    requires k !in ks
    ensures SumOver(ks, m[k := v]) == SumOver(ks, m)
  {
    if ks != [] {
      SumOverFrame(ks[..|ks| - 1], m, k, v);
    }
  }

  lemma {:induction false} SumOverUpdate(ks: seq<string>, m: map<string, Cents>, k: string, v: Cents)
    requires forall j :: j in ks ==> j in m
    requires Distinct(ks) && k in ks
    ensures SumOver(ks, m[k := v]) == SumOver(ks, m) - m[k] + v
  {
    var pre, last := ks[..|ks| - 1], ks[|ks| - 1];
    if last == k {
      assert k !in pre by {
        forall i | 0 <= i < |pre| ensures pre[i] != k {
          assert ks[i] != ks[|ks| - 1];
        }
      }
      SumOverFrame(pre, m, k, v);
    } else {
      assert k in pre by {
        var i :| 0 <= i < |ks| && ks[i] == k;
        assert i < |ks| - 1 && pre[i] == k;
      }
      assert Distinct(pre) by {
        forall i, j | 0 <= i < j < |pre| ensures pre[i] != pre[j] {
          assert pre[i] == ks[i] && pre[j] == ks[j];
        }
      }
      SumOverUpdate(pre, m, k, v);
    }
  }

  /** Writing `v` under `k` changes the sum of the values by `v` minus what
      `k` held before. */
  lemma PutTotal(d: Dict, k: string, v: Cents)
    requires d.Valid()
    ensures d.Put(k, v).Total() == d.Total() - d.Get(k) + v
  {
    if k in d.keys {
      SumOverUpdate(d.keys, d.entries, k, v);
    } else {
      var ks := d.keys + [k];
      assert ks[..|ks| - 1] == d.keys;
      SumOverFrame(d.keys, d.entries, k, v);
    }
  }

  // The general-expense rows grouped by category, as
  // `query(DespesaGeral.categoria, func.sum(DespesaGeral.valor)).group_by(DespesaGeral.categoria)`.

  datatype Group = Group(category: string, total: Cents)

  /** The sum of the values of the rows of category `c`. */
  function CategorySum(es: seq<GeneralExpense>, c: string): Cents
  {
    if es == [] then 0
    else (if es[0].category == c then es[0].value else 0) + CategorySum(es[1..], c)
  }

  predicate HasCategory(es: seq<GeneralExpense>, c: string)
  {
    es != [] && (es[0].category == c || HasCategory(es[1..], c))
  }

  function Categories(gs: seq<Group>): (cs: seq<string>)
    ensures |cs| == |gs|
    ensures forall i :: 0 <= i < |gs| ==> cs[i] == gs[i].category
  {
    if gs == [] then [] else [gs[0].category] + Categories(gs[1..])
  }

  /** `gs` is a result the `group_by` query may return for the rows `es`:
      one row per category that occurs, in any order, with its sum. */
  ghost predicate IsGrouping(gs: seq<Group>, es: seq<GeneralExpense>)
  {
    && Distinct(Categories(gs))
    && (forall c :: c in Categories(gs) <==> HasCategory(es, c))
    && (forall g :: g in gs ==> g.total == CategorySum(es, g.category))
  }

  function DistinctCategories(es: seq<GeneralExpense>): (cs: seq<string>)
    ensures Distinct(cs)
    ensures forall c :: c in cs <==> HasCategory(es, c)
  {
    if es == [] then []
    else
      var rest := DistinctCategories(es[1..]);
      if es[0].category in rest then rest else [es[0].category] + rest
  }

  function GroupsFor(cs: seq<string>, es: seq<GeneralExpense>): (gs: seq<Group>)
    ensures Categories(gs) == cs
    ensures forall g :: g in gs ==> g.total == CategorySum(es, g.category)
  {
    if cs == [] then [] else [Group(cs[0], CategorySum(es, cs[0]))] + GroupsFor(cs[1..], es)
  }

  /** One grouping of the rows: the order of the groups is the database's
      choice, and every lemma below holds for every grouping. */
  function GroupByCategory(es: seq<GeneralExpense>): (gs: seq<Group>)
    ensures IsGrouping(gs, es)
  {
    GroupsFor(DistinctCategories(es), es)
  }

  // Building the dictionary, as `relatorios` and `home` do.

  /** The two fixed buckets, each only when its total is positive. */
  function Seed(fuel: Cents, maintenance: Cents): (d: Dict)
    ensures d.Valid()
  {
    var d1 := if fuel > 0 then Empty.Put(FuelCategory, fuel) else Empty;
    if maintenance > 0 then d1.Put(MaintenanceCategory, maintenance) else d1
  }

  /** One iteration of the group loop: `if total and total > 0:
      d[categoria] = d.get(categoria, 0) + total`. */
  function AddGroup(d: Dict, g: Group): (r: Dict)
    requires d.Valid()
    ensures r.Valid()
    ensures r.Get(g.category) == d.Get(g.category) + Pos(g.total)
    ensures forall k :: k != g.category ==> r.Get(k) == d.Get(k)
  {
    if g.total > 0 then d.Put(g.category, d.Get(g.category) + g.total) else d
  }

  function AddGroups(d: Dict, gs: seq<Group>): (r: Dict)
    requires d.Valid()
    ensures r.Valid()
    decreases |gs|
  {
    if gs == [] then d else AddGroups(AddGroup(d, gs[0]), gs[1..])
  }

  function CategoryMap(fuel: Cents, maintenance: Cents, gs: seq<Group>): (d: Dict)
    ensures d.Valid()
  {
    AddGroups(Seed(fuel, maintenance), gs)
  }

  /** The dictionary as the route builds it: two guarded stores, then one
      guarded read-modify-write per group. */
  method BuildCategoryMap(fuel: Cents, maintenance: Cents, gs: seq<Group>) returns (d: Dict)
    ensures d == CategoryMap(fuel, maintenance, gs)
  {
    d := Empty;
    if fuel > 0 {
      d := d.Put(FuelCategory, fuel);
    }
    if maintenance > 0 {
      d := d.Put(MaintenanceCategory, maintenance);
    }
    assert d == Seed(fuel, maintenance);
    d := MergeGroups(d, gs);
  }

  method MergeGroups(d0: Dict, gs: seq<Group>) returns (d: Dict)
    requires d0.Valid()
    ensures d == AddGroups(d0, gs)
  {
    d := d0;
    var i := 0;
    while i < |gs|
      invariant 0 <= i <= |gs|
      invariant d.Valid()
      invariant AddGroups(d, gs[i..]) == AddGroups(d0, gs)
    {
      var g := gs[i];
      AddGroupsStep(d, gs, i);
      AddGroupUnfold(d, g);
      if g.total > 0 {
        d := d.Put(g.category, d.Get(g.category) + g.total);
      }
      i := i + 1;
    }
    assert gs[i..] == [];
  }

  lemma AddGroupUnfold(d: Dict, g: Group)
    requires d.Valid()
    ensures g.total > 0 ==> AddGroup(d, g) == d.Put(g.category, d.Get(g.category) + g.total)
    ensures g.total <= 0 ==> AddGroup(d, g) == d
  {
  }

  lemma AddGroupsStep(d: Dict, gs: seq<Group>, i: int)
    requires d.Valid() && 0 <= i < |gs|
    ensures AddGroups(d, gs[i..]) == AddGroups(AddGroup(d, gs[i]), gs[i + 1..])
  {
    assert gs[i..][0] == gs[i] && gs[i..][1..] == gs[i + 1..];
  }

  // What the group loop does to one key, to the key set and to the total.

  /** The positive totals of the groups of category `k`. */
  function PositiveSum(gs: seq<Group>, k: string): Cents
  {
    if gs == [] then 0
    else (if gs[0].category == k then Pos(gs[0].total) else 0) + PositiveSum(gs[1..], k)
  }

  predicate HasPositive(gs: seq<Group>, k: string)
  {
    gs != [] && ((gs[0].category == k && gs[0].total > 0) || HasPositive(gs[1..], k))
  }

  /** The positive totals of all the groups. */
  function PositiveTotal(gs: seq<Group>): Cents
  {
    if gs == [] then 0 else Pos(gs[0].total) + PositiveTotal(gs[1..])
  }

  predicate AllPositive(d: Dict)
  {
    forall k :: k in d.entries ==> d.entries[k] > 0
  }

  /** A key ends up holding what it held before plus the positive totals of
      its groups: equal keys are merged, never overwritten. */
  lemma {:induction false} AddGroupsGet(d: Dict, gs: seq<Group>, k: string)
    requires d.Valid()
    ensures AddGroups(d, gs).Get(k) == d.Get(k) + PositiveSum(gs, k)
    decreases |gs|
  {
    if gs != [] {
      AddGroupsGet(AddGroup(d, gs[0]), gs[1..], k);
    }
  }

  /** A key is present afterwards iff it was before or one of its groups
      has a positive total. */
  lemma {:induction false} AddGroupsHas(d: Dict, gs: seq<Group>, k: string)
    requires d.Valid()
    ensures k in AddGroups(d, gs).entries <==> k in d.entries || HasPositive(gs, k)
    decreases |gs|
  {
    if gs != [] {
      AddGroupsHas(AddGroup(d, gs[0]), gs[1..], k);
    }
  }

  /** No key ever maps to a value <= 0. */
  lemma {:induction false} AddGroupsPositive(d: Dict, gs: seq<Group>)
    requires d.Valid() && AllPositive(d)
    ensures AllPositive(AddGroups(d, gs))
    decreases |gs|
  {
    if gs != [] {
      var g := gs[0];
      var d1 := AddGroup(d, g);
      if g.total > 0 {
        assert d.Get(g.category) >= 0;
        forall k | k in d1.entries ensures d1.entries[k] > 0 {
          assert d1.Get(k) == d1.entries[k];
          if k != g.category {
            assert d1.Get(k) == d.Get(k);
          }
        }
      }
      AddGroupsPositive(d1, gs[1..]);
    }
  }

  /** Keys already present keep their places; new keys come after them. */
  lemma {:induction false} AddGroupsKeepsOrder(d: Dict, gs: seq<Group>)
    requires d.Valid()
    ensures d.keys <= AddGroups(d, gs).keys
    decreases |gs|
  {
    if gs != [] {
      AddGroupsKeepsOrder(AddGroup(d, gs[0]), gs[1..]);
    }
  }

  /** The values grow by exactly the positive group totals. */
  lemma AddGroupTotal(d: Dict, g: Group)
    requires d.Valid()
    ensures AddGroup(d, g).Total() == d.Total() + Pos(g.total)
  {
    AddGroupUnfold(d, g);
    if g.total > 0 {
      PutTotal(d, g.category, d.Get(g.category) + g.total);
    }
  }

  /** The values grow by exactly the positive group totals. */
  lemma {:induction false} AddGroupsTotal(d: Dict, gs: seq<Group>)
    requires d.Valid()
    ensures AddGroups(d, gs).Total() == d.Total() + PositiveTotal(gs)
    decreases |gs|
  {
    if gs != [] {
      var d1 := AddGroup(d, gs[0]);
      AddGroupTotal(d, gs[0]);
      AddGroupsTotal(d1, gs[1..]);
      assert AddGroups(d, gs) == AddGroups(d1, gs[1..]);
    }
  }

  lemma SeedFacts(fuel: Cents, maintenance: Cents, k: string)
    ensures var s := Seed(fuel, maintenance);
      && AllPositive(s)
      && (k in s.entries <==> (k == FuelCategory && fuel > 0) || (k == MaintenanceCategory && maintenance > 0))
      && s.Get(k) == (if k == FuelCategory then Pos(fuel) else 0) + (if k == MaintenanceCategory then Pos(maintenance) else 0)
      && s.Total() == Pos(fuel) + Pos(maintenance)
  {
    SeedPositive(fuel, maintenance);
    SeedKey(fuel, maintenance, k);
    SeedGet(fuel, maintenance, k);
    SeedTotal(fuel, maintenance);
  }

  lemma CategoriesDiffer()
    ensures FuelCategory != MaintenanceCategory
  {
    assert FuelCategory[0] != MaintenanceCategory[0];
  }

  lemma SeedPositive(fuel: Cents, maintenance: Cents)
    ensures AllPositive(Seed(fuel, maintenance))
  {
    SeedEntries(fuel, maintenance);
  }

  lemma SeedKey(fuel: Cents, maintenance: Cents, k: string)
    ensures k in Seed(fuel, maintenance).entries <==>
      (k == FuelCategory && fuel > 0) || (k == MaintenanceCategory && maintenance > 0)
  {
    SeedEntries(fuel, maintenance);
    CategoriesDiffer();
  }

  lemma SeedGet(fuel: Cents, maintenance: Cents, k: string)
    ensures Seed(fuel, maintenance).Get(k) ==
      (if k == FuelCategory then Pos(fuel) else 0) + (if k == MaintenanceCategory then Pos(maintenance) else 0)
  {
    SeedEntries(fuel, maintenance);
    CategoriesDiffer();
  }

  lemma SeedEntries(fuel: Cents, maintenance: Cents)
    ensures Seed(fuel, maintenance).entries ==
      if fuel > 0 && maintenance > 0 then map[FuelCategory := fuel, MaintenanceCategory := maintenance]
      else if fuel > 0 then map[FuelCategory := fuel]
      else if maintenance > 0 then map[MaintenanceCategory := maintenance]
      else map[]
  {
    var d1 := if fuel > 0 then Empty.Put(FuelCategory, fuel) else Empty;
    assert d1.entries == if fuel > 0 then map[FuelCategory := fuel] else map[];
  }

  lemma SeedTotal(fuel: Cents, maintenance: Cents)
    ensures Seed(fuel, maintenance).Total() == Pos(fuel) + Pos(maintenance)
  {
    assert FuelCategory != MaintenanceCategory;
    var d1 := if fuel > 0 then Empty.Put(FuelCategory, fuel) else Empty;
    if fuel > 0 {
      PutTotal(Empty, FuelCategory, fuel);
    }
    assert d1.Total() == Pos(fuel);
    if maintenance > 0 {
      assert d1.Get(MaintenanceCategory) == 0;
      PutTotal(d1, MaintenanceCategory, maintenance);
    }
  }

  // From the groups back to the expense rows.

  lemma {:induction false} CategorySumAbsent(es: seq<GeneralExpense>, k: string)
    requires !HasCategory(es, k)
    ensures CategorySum(es, k) == 0
  {
    if es != [] {
      CategorySumAbsent(es[1..], k);
    }
  }

  lemma {:induction false} PositiveSumMissing(gs: seq<Group>, k: string)
    requires k !in Categories(gs)
    ensures PositiveSum(gs, k) == 0 && !HasPositive(gs, k)
  {
    if gs != [] {
      PositiveSumMissing(gs[1..], k);
    }
  }

  lemma {:induction false} PositiveSumUnique(gs: seq<Group>, i: int)
    requires Distinct(Categories(gs))
    requires 0 <= i < |gs|
    ensures PositiveSum(gs, gs[i].category) == Pos(gs[i].total)
    ensures HasPositive(gs, gs[i].category) <==> gs[i].total > 0
  {
    var cs := Categories(gs);
    assert Distinct(cs[1..]) by {
      forall a, b | 0 <= a < b < |cs| - 1 ensures cs[1..][a] != cs[1..][b] {
        assert cs[a + 1] != cs[b + 1];
      }
    }
    assert Categories(gs[1..]) == cs[1..];
    if i == 0 {
      assert gs[0].category !in Categories(gs[1..]) by {
        forall j | 0 <= j < |gs| - 1 ensures cs[1..][j] != gs[0].category {
          assert cs[j + 1] != cs[0];
        }
      }
      PositiveSumMissing(gs[1..], gs[0].category);
    } else {
      assert gs[0].category != gs[i].category by {
        assert cs[0] != cs[i];
      }
      PositiveSumUnique(gs[1..], i - 1);
    }
  }

  /** For a grouping of the rows, the groups of category `k` contribute the
      positive part of that category's sum. */
  lemma GroupingPositiveSum(gs: seq<Group>, es: seq<GeneralExpense>, k: string)
    requires IsGrouping(gs, es)
    ensures PositiveSum(gs, k) == Pos(CategorySum(es, k))
    ensures HasPositive(gs, k) <==> CategorySum(es, k) > 0
  {
    if k in Categories(gs) {
      var i :| 0 <= i < |gs| && Categories(gs)[i] == k;
      assert gs[i] in gs;
      PositiveSumUnique(gs, i);
    } else {
      PositiveSumMissing(gs, k);
      CategorySumAbsent(es, k);
    }
  }

  /** The rows contribute their value to exactly one category of a distinct
      category list that covers them. */
  function SumOfCategorySums(cs: seq<string>, es: seq<GeneralExpense>): Cents
  {
    if cs == [] then 0 else CategorySum(es, cs[0]) + SumOfCategorySums(cs[1..], es)
  }

  function Indicator(e: GeneralExpense, cs: seq<string>): Cents
  {
    if cs == [] then 0 else (if e.category == cs[0] then e.value else 0) + Indicator(e, cs[1..])
  }

  lemma {:induction false} SumOfCategorySumsStep(cs: seq<string>, es: seq<GeneralExpense>)
    requires es != []
    ensures SumOfCategorySums(cs, es) == Indicator(es[0], cs) + SumOfCategorySums(cs, es[1..])
  {
    if cs != [] {
      SumOfCategorySumsStep(cs[1..], es);
    }
  }

  lemma {:induction false} IndicatorOnce(e: GeneralExpense, cs: seq<string>)
    requires Distinct(cs)
    ensures Indicator(e, cs) == if e.category in cs then e.value else 0
  {
    if cs != [] {
      assert Distinct(cs[1..]) by {
        forall a, b | 0 <= a < b < |cs| - 1 ensures cs[1..][a] != cs[1..][b] {
          assert cs[a + 1] != cs[b + 1];
        }
      }
      IndicatorOnce(e, cs[1..]);
      if e.category == cs[0] {
        assert e.category !in cs[1..] by {
          forall j | 0 <= j < |cs| - 1 ensures cs[1..][j] != cs[0] {
            assert cs[j + 1] != cs[0];
          }
        }
      }
    }
  }

  lemma {:induction false} SumOfCategorySumsIsCost(cs: seq<string>, es: seq<GeneralExpense>)
    requires Distinct(cs)
    requires forall c :: HasCategory(es, c) ==> c in cs
    ensures SumOfCategorySums(cs, es) == ExpenseCost(es)
  {
    if es != [] {
      SumOfCategorySumsStep(cs, es);
      IndicatorOnce(es[0], cs);
      assert HasCategory(es, es[0].category);
      forall c | HasCategory(es[1..], c) ensures c in cs {
        assert HasCategory(es, c);
      }
      SumOfCategorySumsIsCost(cs, es[1..]);
      assert ExpenseCost(es) == es[0].value + ExpenseCost(es[1..]);
    } else {
      SumOfCategorySumsNoRows(cs);
    }
  }

  lemma {:induction false} SumOfCategorySumsNoRows(cs: seq<string>)
    ensures SumOfCategorySums(cs, []) == 0
  {
    if cs != [] {
      SumOfCategorySumsNoRows(cs[1..]);
    }
  }

  lemma {:induction false} PositiveTotalOfGroups(gs: seq<Group>, es: seq<GeneralExpense>)
    requires forall g :: g in gs ==> g.total == CategorySum(es, g.category)
    requires forall e :: e in es ==> e.value >= 0
    ensures PositiveTotal(gs) == SumOfCategorySums(Categories(gs), es)
  {
    if gs != [] {
      CategorySumNonNegative(es, gs[0].category);
      assert gs[0] in gs;
      PositiveTotalOfGroups(gs[1..], es);
    }
  }

  lemma {:induction false} CategorySumNonNegative(es: seq<GeneralExpense>, c: string)
    requires forall e :: e in es ==> e.value >= 0
    ensures CategorySum(es, c) >= 0
  {
    if es != [] {
      assert es[0] in es;
      CategorySumNonNegative(es[1..], c);
    }
  }

  // The properties of the finished dictionary.

  /** The category map of a period: which keys it has, what each holds,
      that every value is positive, and that existing keys are merged. */
  lemma CategoryMapContents(fuel: Cents, maintenance: Cents, gs: seq<Group>, es: seq<GeneralExpense>, k: string)
    requires IsGrouping(gs, es)
    ensures var d := CategoryMap(fuel, maintenance, gs);
      && AllPositive(d)
      && (k in d.entries <==>
            (k == FuelCategory && fuel > 0)
            || (k == MaintenanceCategory && maintenance > 0)
            || CategorySum(es, k) > 0)
      && d.Get(k) == (if k == FuelCategory then Pos(fuel) else 0)
                     + (if k == MaintenanceCategory then Pos(maintenance) else 0)
                     + Pos(CategorySum(es, k))
  {
    var s := Seed(fuel, maintenance);
    SeedFacts(fuel, maintenance, k);
    AddGroupsPositive(s, gs);
    AddGroupsHas(s, gs, k);
    AddGroupsGet(s, gs, k);
    GroupingPositiveSum(gs, es, k);
  }

  /** With no negative amounts, the values of the map add up to the whole
      expense total of the period: fuel plus maintenance plus every general
      expense. */
  lemma CategoryMapTotal(fuel: Cents, maintenance: Cents, gs: seq<Group>, es: seq<GeneralExpense>)
    requires IsGrouping(gs, es)
    requires fuel >= 0 && maintenance >= 0
    requires forall e :: e in es ==> e.value >= 0
    ensures CategoryMap(fuel, maintenance, gs).Total() == fuel + maintenance + ExpenseCost(es)
  {
    SeedFacts(fuel, maintenance, FuelCategory);
    AddGroupsTotal(Seed(fuel, maintenance), gs);
    PositiveTotalOfGroups(gs, es);
    SumOfCategorySumsIsCost(Categories(gs), es);
  }
}
