/** The per-vehicle section of the period report: for each vehicle, in the
    order of the vehicle table, its fuel, maintenance and revenue rows of the
    period, kept only when at least one of the three is non-empty. */
module VehicleBreakdown {
  import opened Wrappers
  import opened Calendar
  import opened Records
  import opened Totals

  /** One dict of `detalhamento_por_veiculo`. */
  datatype VehicleReport = VehicleReport(
    plate: string, model: string,
    fuelTotal: Cents, maintenanceTotal: Cents, revenueTotal: Cents,
    fuels: seq<Fuel>, maintenances: seq<Maintenance>)

  function VehicleFuels(fs: seq<Fuel>, id: int, p: Period): seq<Fuel>
  {
    Filter(fs, (f: Fuel) => f.vehicleId == id && p.Contains(f.date))
  }

  function VehicleMaintenances(ms: seq<Maintenance>, id: int, p: Period): seq<Maintenance>
  {
    Filter(ms, (m: Maintenance) => m.vehicleId == id && p.Contains(m.date))
  }

  function VehicleRevenues(rs: seq<Revenue>, id: int, p: Period): seq<Revenue>
  {
    Filter(rs, (r: Revenue) => r.vehicleId == Some(id) && p.Contains(r.date))
  }

  /** `if v_abastecimentos or v_manutencoes or v_receitas` */
  predicate Active(v: Vehicle, t: Tables, p: Period)
  {
    || VehicleFuels(t.fuels, v.id, p) != []
    || VehicleMaintenances(t.maintenances, v.id, p) != []
    || VehicleRevenues(t.revenues, v.id, p) != []
  }

  function ReportFor(v: Vehicle, t: Tables, p: Period): VehicleReport
  {
    var fs := VehicleFuels(t.fuels, v.id, p);
    var ms := VehicleMaintenances(t.maintenances, v.id, p);
    var rs := VehicleRevenues(t.revenues, v.id, p);
    VehicleReport(v.plate, v.model, FuelCost(fs), MaintenanceCost(ms), RevenueAmount(rs), fs, ms)
  }

  function Breakdown(vs: seq<Vehicle>, t: Tables, p: Period): seq<VehicleReport>
  {
    if vs == [] then []
    else (if Active(vs[0], t, p) then [ReportFor(vs[0], t, p)] else []) + Breakdown(vs[1..], t, p)
  }

  /** Entries follow the vehicle order: the breakdown of two runs of
      vehicles is the breakdown of the first followed by that of the second. */
  lemma {:induction false} BreakdownAppend(a: seq<Vehicle>, b: seq<Vehicle>, t: Tables, p: Period)
    ensures Breakdown(a + b, t, p) == Breakdown(a, t, p) + Breakdown(b, t, p)
  {
    if a == [] {
      assert a + b == b;
    } else {
      assert (a + b)[1..] == a[1..] + b;
      BreakdownAppend(a[1..], b, t, p);
    }
  }

  /** One more vehicle adds its report at the end exactly when it is active. */
  lemma BreakdownSnoc(vs: seq<Vehicle>, i: int, t: Tables, p: Period)
    requires 0 <= i < |vs|
    ensures Breakdown(vs[..i + 1], t, p) ==
      Breakdown(vs[..i], t, p) + (if Active(vs[i], t, p) then [ReportFor(vs[i], t, p)] else [])
  {
    BreakdownAppend(vs[..i], [vs[i]], t, p);
    assert vs[..i + 1] == vs[..i] + [vs[i]];
  }

  /** The loop over `Veiculo.query.all()`. */
  method BuildBreakdown(t: Tables, p: Period) returns (r: seq<VehicleReport>)
    ensures r == Breakdown(t.vehicles, t, p)
  {
    var vs := t.vehicles;
    r := [];
    for i := 0 to |vs|
      invariant r == Breakdown(vs[..i], t, p)
    {
      var v := vs[i];
      var fs := VehicleFuels(t.fuels, v.id, p);
      var ms := VehicleMaintenances(t.maintenances, v.id, p);
      var rs := VehicleRevenues(t.revenues, v.id, p);
      BreakdownSnoc(vs, i, t, p);
      if fs != [] || ms != [] || rs != [] {
        r := r + [VehicleReport(v.plate, v.model, FuelCost(fs), MaintenanceCost(ms), RevenueAmount(rs), fs, ms)];
      }
    }
    assert vs[..|vs|] == vs;
  }

  /** A vehicle is active iff it has a fuel, maintenance or revenue row in
      the period. */
  lemma ActiveIffRows(v: Vehicle, t: Tables, p: Period)
    ensures Active(v, t, p) <==>
      || (exists f :: f in t.fuels && f.vehicleId == v.id && p.Contains(f.date))
      || (exists m :: m in t.maintenances && m.vehicleId == v.id && p.Contains(m.date))
      || (exists r :: r in t.revenues && r.vehicleId == Some(v.id) && p.Contains(r.date))
  {
    var fs := VehicleFuels(t.fuels, v.id, p);
    var ms := VehicleMaintenances(t.maintenances, v.id, p);
    var rs := VehicleRevenues(t.revenues, v.id, p);
    if fs != [] { assert fs[0] in fs; }
    if ms != [] { assert ms[0] in ms; }
    if rs != [] { assert rs[0] in rs; }
  }

  /** Exactly the active vehicles appear, each with its own report. */
  lemma {:induction false} BreakdownMembers(vs: seq<Vehicle>, t: Tables, p: Period, e: VehicleReport)
    ensures e in Breakdown(vs, t, p) <==> exists v :: v in vs && Active(v, t, p) && e == ReportFor(v, t, p)
  {
    if vs != [] {
      BreakdownMembers(vs[1..], t, p, e);
      if e in Breakdown(vs[1..], t, p) {
        var v :| v in vs[1..] && Active(v, t, p) && e == ReportFor(v, t, p);
        assert v in vs;
      }
      if exists v :: v in vs && Active(v, t, p) && e == ReportFor(v, t, p) {
        var v :| v in vs && Active(v, t, p) && e == ReportFor(v, t, p);
        if v != vs[0] {
          assert v in vs[1..];
        }
      }
    }
  }

  /** Each report holds exactly that vehicle's rows of the period and their
      sums. */
  lemma ReportForContents(v: Vehicle, t: Tables, p: Period)
    ensures var e := ReportFor(v, t, p);
      && e.plate == v.plate && e.model == v.model
      && (forall f :: f in e.fuels <==> f in t.fuels && f.vehicleId == v.id && p.Contains(f.date))
      && (forall m :: m in e.maintenances <==> m in t.maintenances && m.vehicleId == v.id && p.Contains(m.date))
      && e.fuelTotal == FuelCost(e.fuels)
      && e.maintenanceTotal == MaintenanceCost(e.maintenances)
      && e.revenueTotal == RevenueAmount(VehicleRevenues(t.revenues, v.id, p))
  {
  }

  /** The breakdown has at most one entry per vehicle. */
  lemma {:induction false} BreakdownLength(vs: seq<Vehicle>, t: Tables, p: Period)
    ensures |Breakdown(vs, t, p)| <= |vs|
    ensures (forall v :: v in vs ==> Active(v, t, p)) ==> |Breakdown(vs, t, p)| == |vs|
    ensures (forall v :: v in vs ==> !Active(v, t, p)) ==> Breakdown(vs, t, p) == []
  {
    if vs != [] {
      assert vs[0] in vs;
      assert forall v :: v in vs[1..] ==> v in vs;
      BreakdownLength(vs[1..], t, p);
    }
  }
}
