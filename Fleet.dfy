/** The store behind the fleet routes, with the one mutation the model keeps:
    `excluir_veiculo`, which deletes a vehicle if it exists. Deleting a
    vehicle cascades to its fuel, maintenance and revenue rows (the
    relationships are declared `cascade="all, delete-orphan"`). */
module Fleet {
  import opened Wrappers
  import opened Calendar
  import opened Records
  import opened Totals
  import opened VehicleBreakdown
  import opened Access

  function VehiclesWithout(vs: seq<Vehicle>, id: int): seq<Vehicle>
  {
    Filter(vs, (v: Vehicle) => v.id != id)
  }

  function FuelsWithout(fs: seq<Fuel>, id: int): seq<Fuel>
  {
    Filter(fs, (f: Fuel) => f.vehicleId != id)
  }

  function MaintenancesWithout(ms: seq<Maintenance>, id: int): seq<Maintenance>
  {
    Filter(ms, (m: Maintenance) => m.vehicleId != id)
  }

  /** A revenue without a vehicle is never removed by a cascade. */
  function RevenuesWithout(rs: seq<Revenue>, id: int): seq<Revenue>
  {
    Filter(rs, (r: Revenue) => r.vehicleId != Some(id))
  }

  /** The tables after `excluir_veiculo(id)`: unchanged when no vehicle has
      that id, otherwise without the vehicle and the rows that point to it. */
  function AfterDelete(t: Tables, id: int): Tables
  {
    if FindVehicle(t.vehicles, id).None? then t
    else Tables(VehiclesWithout(t.vehicles, id), t.employees, FuelsWithout(t.fuels, id),
                MaintenancesWithout(t.maintenances, id), t.expenses, RevenuesWithout(t.revenues, id))
  }

  /** Every fuel and maintenance row, and every revenue that names a
      vehicle, points to an existing vehicle. SQLite does not enforce the
      foreign keys, so this is a property of the data, not an invariant of
      the store. */
  predicate Linked(t: Tables)
  {
    && (forall f :: f in t.fuels ==> FindVehicle(t.vehicles, f.vehicleId).Some?)
    && (forall m :: m in t.maintenances ==> FindVehicle(t.vehicles, m.vehicleId).Some?)
    && (forall r :: r in t.revenues && r.vehicleId.Some? ==> FindVehicle(t.vehicles, r.vehicleId.value).Some?)
  }

  class Store {
    var vehicles: seq<Vehicle>
    var employees: seq<Employee>
    var fuels: seq<Fuel>
    var maintenances: seq<Maintenance>
    var expenses: seq<GeneralExpense>
    var revenues: seq<Revenue>

    /** The vehicle primary key is unique. */
    predicate Valid()
      reads this
    {
      DistinctIds(vehicles)
    }

    function Snapshot(): Tables
      reads this
    {
      Tables(vehicles, employees, fuels, maintenances, expenses, revenues)
    }

    constructor (t: Tables)
      requires DistinctIds(t.vehicles)
      ensures Valid() && Snapshot() == t
    {
      vehicles := t.vehicles;
      employees := t.employees;
      fuels := t.fuels;
      maintenances := t.maintenances;
      expenses := t.expenses;
      revenues := t.revenues;
    }

    /** The body of `excluir_veiculo`: look the vehicle up, and delete it
        with its rows only if it is there. */
    method DeleteVehicle(id: int)
      requires Valid()
      modifies this
      ensures Valid()
      ensures Snapshot() == AfterDelete(old(Snapshot()), id)
    {
      var found := FindVehicle(vehicles, id);
      if found.Some? {
        DistinctAfterDelete(vehicles, id);
        vehicles := VehiclesWithout(vehicles, id);
        fuels := FuelsWithout(fuels, id);
        maintenances := MaintenancesWithout(maintenances, id);
        revenues := RevenuesWithout(revenues, id);
      }
    }

    /** The route, behind `@login_required` and `@admin_required`: only an
        admin changes the store, and whoever runs it ends on the fleet page. */
    method DeleteVehicleRoute(session: Session, id: int) returns (r: Response<View>)
      requires Valid()
      modifies this
      ensures Valid()
      ensures r == LoginRequired(session, () => AdminRequired(session, () => FleetView))
      ensures IsAdmin(session) ==> Snapshot() == AfterDelete(old(Snapshot()), id)
      ensures !IsAdmin(session) ==> Snapshot() == old(Snapshot())
    {
      if session.Anonymous? {
        r := Redirect(LoginView, LoginMessage);
      } else if session.role != AdminRole {
        r := Redirect(HomeView, DeniedMessage);
      } else {
        DeleteVehicle(id);
        r := Ran(FleetView);
      }
    }
  }

  lemma {:induction false} DistinctAfterDelete(vs: seq<Vehicle>, id: int)
    requires DistinctIds(vs)
    ensures DistinctIds(VehiclesWithout(vs, id))
  {
    if vs != [] {
      DistinctAfterDelete(vs[1..], id);
      var rest := VehiclesWithout(vs[1..], id);
      if vs[0].id != id {
        var r := [vs[0]] + rest;
        assert r == VehiclesWithout(vs, id);
        forall i, j | 0 <= i < j < |r|
          ensures r[i].id != r[j].id
        {
          if i == 0 {
            assert r[j] in vs[1..];
          }
        }
      }
    }
  }

  /** With unique ids exactly one vehicle row goes. */
  lemma {:induction false} DeleteRemovesOneVehicle(vs: seq<Vehicle>, id: int)
    requires DistinctIds(vs)
    requires FindVehicle(vs, id).Some?
    ensures |VehiclesWithout(vs, id)| == |vs| - 1
  {
    if vs[0].id == id {
      assert forall v :: v in vs[1..] ==> v.id != id by {
        forall v | v in vs[1..] ensures v.id != id {
          var j :| 0 <= j < |vs[1..]| && vs[1..][j] == v;
          assert vs[j + 1] == v;
        }
      }
      KeepAll(vs[1..], id);
    } else {
      assert DistinctIds(vs[1..]) by {
        forall i, j | 0 <= i < j < |vs[1..]| ensures vs[1..][i].id != vs[1..][j].id {
          assert vs[1..][i] == vs[i + 1] && vs[1..][j] == vs[j + 1];
        }
      }
      DeleteRemovesOneVehicle(vs[1..], id);
    }
  }

  lemma {:induction false} KeepAll(vs: seq<Vehicle>, id: int)
    requires forall v :: v in vs ==> v.id != id
    ensures VehiclesWithout(vs, id) == vs
  {
    if vs != [] {
      assert vs[0] in vs;
      KeepAll(vs[1..], id);
    }
  }

  /** What a delete removes: nothing at all for an unknown id; otherwise the
      vehicle and exactly the rows that point to it, with employees and
      general expenses untouched. */
  lemma DeleteRemovesExactly(t: Tables, id: int)
    ensures FindVehicle(t.vehicles, id).None? ==> AfterDelete(t, id) == t
    ensures var a := AfterDelete(t, id);
      FindVehicle(t.vehicles, id).Some? ==>
      && (forall v :: v in a.vehicles <==> v in t.vehicles && v.id != id)
      && (forall f :: f in a.fuels <==> f in t.fuels && f.vehicleId != id)
      && (forall m :: m in a.maintenances <==> m in t.maintenances && m.vehicleId != id)
      && (forall r :: r in a.revenues <==> r in t.revenues && r.vehicleId != Some(id))
      && a.employees == t.employees && a.expenses == t.expenses
      && FindVehicle(a.vehicles, id).None?
  {
  }

  /** Deleting a vehicle with its rows leaves no row pointing nowhere. */
  lemma DeleteKeepsLinks(t: Tables, id: int)
    requires Linked(t)
    ensures Linked(AfterDelete(t, id))
  {
    var a := AfterDelete(t, id);
    if FindVehicle(t.vehicles, id).Some? {
      forall x: int | x != id && FindVehicle(t.vehicles, x).Some?
        ensures FindVehicle(a.vehicles, x).Some?
      {
        assert FindVehicle(t.vehicles, x).value in a.vehicles;
      }
    }
  }

  lemma {:induction false} OtherFuelsKept(fs: seq<Fuel>, id: int, other: int, p: Period)
    requires other != id
    ensures VehicleFuels(FuelsWithout(fs, id), other, p) == VehicleFuels(fs, other, p)
  {
    if fs != [] {
      OtherFuelsKept(fs[1..], id, other, p);
    }
  }

  lemma {:induction false} OtherMaintenancesKept(ms: seq<Maintenance>, id: int, other: int, p: Period)
    requires other != id
    ensures VehicleMaintenances(MaintenancesWithout(ms, id), other, p) == VehicleMaintenances(ms, other, p)
  {
    if ms != [] {
      OtherMaintenancesKept(ms[1..], id, other, p);
    }
  }

  lemma {:induction false} OtherRevenuesKept(rs: seq<Revenue>, id: int, other: int, p: Period)
    requires other != id
    ensures VehicleRevenues(RevenuesWithout(rs, id), other, p) == VehicleRevenues(rs, other, p)
  {
    if rs != [] {
      OtherRevenuesKept(rs[1..], id, other, p);
    }
  }

  /** Every other vehicle's section of a period report is the same after
      the delete. */
  lemma DeleteKeepsOtherReports(t: Tables, id: int, v: Vehicle, p: Period)
    requires v.id != id
    ensures Active(v, AfterDelete(t, id), p) <==> Active(v, t, p)
    ensures ReportFor(v, AfterDelete(t, id), p) == ReportFor(v, t, p)
  {
    if FindVehicle(t.vehicles, id).Some? {
      OtherFuelsKept(t.fuels, id, v.id, p);
      OtherMaintenancesKept(t.maintenances, id, v.id, p);
      OtherRevenuesKept(t.revenues, id, v.id, p);
    }
  }
}
