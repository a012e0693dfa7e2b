/** The rows of the application's tables, as the ORM classes in models.py
    declare them. Money is held in integer cents and litres in hundredths of
    a litre, where the database holds floats. */
module Records {
  import opened Wrappers
  import opened Calendar

  /** A sum of money in cents. */
  type Cents = int

  datatype Vehicle = Vehicle(id: int, plate: string, model: string, year: int, startOdometer: int)

  datatype Employee = Employee(
    id: int, name: string, role: string, hireDate: Date, birthDate: Option<Date>,
    licenseNumber: Option<string>, licenseClass: Option<string>,
    baseSalary: Cents, extraAllowance: Cents, active: bool)

  datatype Fuel = Fuel(
    id: int, date: Date, centiliters: int, total: Cents, odometer: int,
    vehicleId: int, employeeId: int)

  datatype Maintenance = Maintenance(
    id: int, date: Date, vehicleId: int, service: string, cost: Cents, odometer: int)

  datatype GeneralExpense = GeneralExpense(
    id: int, date: Date, description: string, category: string, value: Cents)

  datatype Revenue = Revenue(
    id: int, date: Date, description: string, value: Cents, vehicleId: Option<int>)

  /** The contents of the database that the reports read. */
  datatype Tables = Tables(
    vehicles: seq<Vehicle>, employees: seq<Employee>, fuels: seq<Fuel>,
    maintenances: seq<Maintenance>, expenses: seq<GeneralExpense>, revenues: seq<Revenue>)

  /** `Vehicle.query.get(id)`: the vehicle with that primary key, if any. */
  function FindVehicle(vs: seq<Vehicle>, id: int): (r: Option<Vehicle>)
    ensures r.Some? ==> r.value in vs && r.value.id == id
    ensures r.None? <==> forall v :: v in vs ==> v.id != id
  {
    if vs == [] then None
    else if vs[0].id == id then Some(vs[0])
    else FindVehicle(vs[1..], id)
  }

  /** The plate the ORM relationship `item.veiculo.placa` reaches, or None
      where `item.veiculo` is None. */
  function PlateOf(vs: seq<Vehicle>, id: int): (r: Option<string>)
    ensures r.Some? <==> exists v :: v in vs && v.id == id
    ensures r.Some? ==> exists v :: v in vs && v.id == id && r.value == v.plate
    ensures DistinctIds(vs) ==> forall v :: v in vs && v.id == id ==> r == Some(v.plate)
  {
    match FindVehicle(vs, id)
    case Some(v) => Some(v.plate)
    case None => None
  }

  /** Primary keys are unique. */
  predicate DistinctIds(vs: seq<Vehicle>)
  {
    forall i, j :: 0 <= i < j < |vs| ==> vs[i].id != vs[j].id
  }
}
