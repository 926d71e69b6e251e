/** The records of the ledger: launches (income or expense), work sessions,
    maintenance alerts and the reserve configuration, with the defaults the
    application starts from. Money and distances are exact reals; an optional
    field of the original record is an `Option`. */
module Types {

  datatype Option<+T> = None | Some(value: T)
  {
    function GetOr(default: T): T
    {
      if this.Some? then value else default
    }
  }

  /** JavaScript truthiness of an optional number used as `x || 0`: an
      absent value and zero both read as zero. */
  function OrZero(o: Option<real>): real
  {
    if o.Some? then o.value else 0.0
  }

  /** `o` is present and non-zero, the condition `if (x)` tests. */
  predicate Truthy(o: Option<real>)
  {
    o.Some? && o.value != 0.0
  }

  /** What `parseFloat` makes of a text field: the field is empty, holds a
      number, or holds text that does not start with a number (NaN). */
  datatype Field = Blank | Number(v: real) | Garbage

  /** The parsed value, `None` standing for NaN. */
  function Parsed(f: Field): (o: Option<real>)
    ensures o.Some? <==> f.Number?
  {
    if f.Number? then Some(f.v) else None
  }

  /** The form check `isNaN(x) || x <= 0` fails: a positive number. */
  predicate PositiveField(f: Field)
  {
    f.Number? && f.v > 0.0
  }

  datatype Payment = Money | Pix | Debito | Caderno

  datatype Category = Income | Fuel | Food | Maintenance | Others

  /** A launch of the ledger (a `DailyEntry`). An income launch has
      `grossAmount > 0` and its reserves in `fuel`, `food` and `maintenance`;
      an expense has `grossAmount == 0` and the amount spent in one bucket. */
  datatype Entry = Entry(
    id: string,
    date: string,
    time: string,
    storeName: string,
    grossAmount: real,
    fuel: real,
    food: real,
    maintenance: real,
    netAmount: real,
    kmDriven: Option<real>,
    fuelPrice: Option<real>,
    liters: Option<real>,
    kmAtMaintenance: Option<real>,
    paymentMethod: Option<Payment>,
    isPaid: Option<bool>,
    category: Option<Category>)

  /** A work session: open while it has no end time. */
  datatype TimeEntry = TimeEntry(
    id: string,
    date: string,
    startTime: string,
    endTime: Option<string>,
    breakDuration: Option<int>,
    notes: Option<string>)

  datatype MaintenanceAlert = MaintenanceAlert(
    id: string,
    description: string,
    kmInterval: real,
    lastKm: real)

  datatype AppConfig = AppConfig(
    percFuel: real,
    percFood: real,
    percMaintenance: real,
    dailyGoal: real,
    lastFuelPrice: Option<real>,
    lastTotalKm: Option<real>,
    maintenanceAlerts: Option<seq<MaintenanceAlert>>)

  /** The label of an odometer-closing launch. */
  const ClosingLabel: string := "Fechamento de KM"

  predicate IsIncome(e: Entry) { e.grossAmount > 0.0 }
  predicate IsExpense(e: Entry) { e.grossAmount == 0.0 }

  function GrossOf(e: Entry): real { e.grossAmount }
  function FuelOf(e: Entry): real { e.fuel }
  function FoodOf(e: Entry): real { e.food }
  function MaintenanceOf(e: Entry): real { e.maintenance }
  function NetOf(e: Entry): real { e.netAmount }
  function KmOf(e: Entry): real { OrZero(e.kmDriven) }
  function LitersOf(e: Entry): real { OrZero(e.liters) }
  function DateOf(e: Entry): string { e.date }
  function StoreOf(e: Entry): string { e.storeName }
  function IdOf(e: Entry): string { e.id }

  /** The alerts a fresh installation starts with. */
  function DefaultAlerts(): (r: seq<MaintenanceAlert>)
    ensures |r| == 3
    ensures forall i :: 0 <= i < |r| ==> r[i].kmInterval > 0.0 && r[i].lastKm == 0.0
    ensures forall i, j :: 0 <= i < j < |r| ==> r[i].id != r[j].id
  {
    [ MaintenanceAlert("1", "Troca de \U{D3}leo", 10000.0, 0.0),
      MaintenanceAlert("2", "Pneus", 40000.0, 0.0),
      MaintenanceAlert("3", "Freios", 20000.0, 0.0) ]
  }

  /** The configuration a fresh installation starts with: reserves of 14%,
      8% and 8% of each income, a daily goal of 250. */
  function DefaultConfig(): (c: AppConfig)
    ensures c.percFuel + c.percFood + c.percMaintenance == 0.30
    ensures 0.0 <= c.percFuel && 0.0 <= c.percFood && 0.0 <= c.percMaintenance
    ensures c.dailyGoal > 0.0
    ensures c.lastFuelPrice == Some(5.5) && c.lastTotalKm == Some(0.0)
    ensures c.maintenanceAlerts == Some(DefaultAlerts())
  {
    AppConfig(0.14, 0.08, 0.08, 250.0, Some(5.5), Some(0.0), Some(DefaultAlerts()))
  }
}
