/** The ledger arithmetic: the two launch factories, the reserve-versus-spent
    summary, the week and day groupings, the fuel ratios and the clock
    arithmetic of work sessions. */
module Calculations {
  import opened Types
  import opened Seqs
  import opened Strings
  import opened Calendar
  import opened Sorting

  // ---------------------------------------------------------------------
  // Launch factories

  /** An income launch: the gross is split into the three configured
      reserves and what is left is the net. */
  function CalculateDailyEntry(id: string, gross: real, date: string, time: string, storeName: string,
                               config: AppConfig, kmDriven: Option<real>, fuelPrice: Option<real>,
                               paymentMethod: Option<Payment>): (e: Entry)
    ensures e.id == id && e.date == date && e.time == time && e.grossAmount == gross
    ensures e.fuel == gross * config.percFuel
    ensures e.food == gross * config.percFood
    ensures e.maintenance == gross * config.percMaintenance
    ensures e.fuel + e.food + e.maintenance + e.netAmount == gross
    ensures e.isPaid == Some(paymentMethod == Some(Money))
    ensures e.category == Some(Income)
    ensures e.storeName == (if storeName == "" then "Geral" else storeName)
    ensures e.kmDriven == kmDriven && e.fuelPrice == fuelPrice && e.paymentMethod == paymentMethod
    ensures e.liters == None && e.kmAtMaintenance == None
  {
    var fuel := gross * config.percFuel;
    var food := gross * config.percFood;
    var maintenance := gross * config.percMaintenance;
    Entry(id, date, time, if storeName == "" then "Geral" else storeName,
          gross, fuel, food, maintenance, gross - (fuel + food + maintenance),
          kmDriven, fuelPrice, None, None, paymentMethod,
          Some(paymentMethod == Some(Money)), Some(Income))
  }

  /** With the default 14/8/8 split an income keeps 70% of its gross. */
  lemma DefaultIncomeKeepsSeventyPercent(id: string, gross: real, date: string, time: string, store: string)
    ensures CalculateDailyEntry(id, gross, date, time, store, DefaultConfig(), None, None, None).netAmount
         == gross * 0.70
  {
  }

  /** The categories a manual expense can be booked under. */
  type ExpenseCategory = c: Category | c == Fuel || c == Food || c == Maintenance witness Fuel

  /** The label of a manual expense. */
  function ExpenseLabel(description: string): string
  {
    "[GASTO] " + (if description == "" then "Despesa Extra" else description)
  }

  /** An expense launch: no gross, the whole amount in the one chosen bucket,
      a net of minus the amount; litres are kept only for fuel. */
  function CalculateManualExpense(id: string, amount: real, category: ExpenseCategory, date: string, time: string,
                                  description: string, kmAtMaintenance: Option<real>,
                                  paymentMethod: Option<Payment>, liters: Option<real>): (e: Entry)
    ensures e.id == id && e.date == date && e.time == time
    ensures e.grossAmount == 0.0 && e.netAmount == -amount
    ensures e.fuel == (if category == Fuel then amount else 0.0)
    ensures e.food == (if category == Food then amount else 0.0)
    ensures e.maintenance == (if category == Maintenance then amount else 0.0)
    ensures e.fuel + e.food + e.maintenance == amount
    ensures e.fuel + e.food + e.maintenance + e.netAmount == 0.0
    ensures e.liters == (if category == Fuel then liters else None)
    ensures e.storeName == ExpenseLabel(description)
    ensures StartsWith(e.storeName, "[GASTO] ")
    ensures e.category == Some(category)
    ensures e.isPaid == Some(paymentMethod == Some(Money))
    ensures e.kmAtMaintenance == kmAtMaintenance && e.paymentMethod == paymentMethod
    ensures e.kmDriven == None && e.fuelPrice == None
  {
    Entry(id, date, time, ExpenseLabel(description), 0.0,
          if category == Fuel then amount else 0.0,
          if category == Food then amount else 0.0,
          if category == Maintenance then amount else 0.0,
          -amount, None, None, if category == Fuel then liters else None,
          kmAtMaintenance, paymentMethod, Some(paymentMethod == Some(Money)), Some(category))
  }

  // ---------------------------------------------------------------------
  // Reserve-versus-spent summary

  datatype WeeklySummary = WeeklySummary(
    totalGross: real,
    totalNet: real,
    totalFuel: real,
    totalFood: real,
    totalMaintenance: real,
    totalSpentFuel: real,
    totalSpentFood: real,
    totalSpentMaintenance: real,
    totalFees: real,
    totalKm: real,
    totalLiters: real)

  /** What was spent beyond what was reserved, never negative. */
  function Excess(spent: real, reserved: real): (x: real)
    ensures x >= 0.0 && x >= spent - reserved
    ensures x == 0.0 <==> spent <= reserved
  {
    if spent - reserved > 0.0 then spent - reserved else 0.0
  }

  function Incomes(entries: seq<Entry>): seq<Entry> { Filter(entries, IsIncome) }
  function Expenses(entries: seq<Entry>): seq<Entry> { Filter(entries, IsExpense) }

  /** The summary of a list of launches. Reserves are summed over incomes,
      spending over expenses; overspending a reserve is charged as an
      extra fee. Launches with a negative gross fall in neither group. */
  function GetWeeklySummary(entries: seq<Entry>): (r: WeeklySummary)
    ensures r.totalFees >= r.totalFuel + r.totalFood + r.totalMaintenance
    ensures r.totalFees == r.totalFuel + r.totalFood + r.totalMaintenance
                        + Excess(r.totalSpentFuel, r.totalFuel)
                        + Excess(r.totalSpentFood, r.totalFood)
                        + Excess(r.totalSpentMaintenance, r.totalMaintenance)
    ensures r.totalNet == r.totalGross - r.totalFees
    ensures entries == [] ==> r == WeeklySummary(0.0, 0.0, 0.0, 0.0, 0.0, 0.0, 0.0, 0.0, 0.0, 0.0, 0.0)
  {
    var income := Incomes(entries);
    var expense := Expenses(entries);
    var gross := Sum(income, GrossOf);
    var fuel := Sum(income, FuelOf);
    var food := Sum(income, FoodOf);
    var maintenance := Sum(income, MaintenanceOf);
    var spentFuel := Sum(expense, FuelOf);
    var spentFood := Sum(expense, FoodOf);
    var spentMaintenance := Sum(expense, MaintenanceOf);
    var excess := Excess(spentFuel, fuel) + Excess(spentFood, food) + Excess(spentMaintenance, maintenance);
    var fees := fuel + food + maintenance;
    WeeklySummary(gross, gross - fees - excess, fuel, food, maintenance,
                  spentFuel, spentFood, spentMaintenance, fees + excess,
                  Sum(entries, KmOf), Sum(expense, LitersOf))
  }

  /** Adding a launch adds its gross and reserves (for an income) or its
      spending and litres (for an expense), and its km in either case. */
  lemma {:induction false} SummaryAppend(entries: seq<Entry>, e: Entry)
    ensures var a, b := GetWeeklySummary(entries), GetWeeklySummary(entries + [e]);
      && b.totalGross == a.totalGross + (if IsIncome(e) then e.grossAmount else 0.0)
      && b.totalFuel == a.totalFuel + (if IsIncome(e) then e.fuel else 0.0)
      && b.totalFood == a.totalFood + (if IsIncome(e) then e.food else 0.0)
      && b.totalMaintenance == a.totalMaintenance + (if IsIncome(e) then e.maintenance else 0.0)
      && b.totalSpentFuel == a.totalSpentFuel + (if IsExpense(e) then e.fuel else 0.0)
      && b.totalSpentFood == a.totalSpentFood + (if IsExpense(e) then e.food else 0.0)
      && b.totalSpentMaintenance == a.totalSpentMaintenance + (if IsExpense(e) then e.maintenance else 0.0)
      && b.totalKm == a.totalKm + OrZero(e.kmDriven)
      && b.totalLiters == a.totalLiters + (if IsExpense(e) then OrZero(e.liters) else 0.0)
  {
    FilterAppend(entries, [e], IsIncome);
    FilterAppend(entries, [e], IsExpense);
    var inc, exp := Incomes(entries), Expenses(entries);
    var incE := Filter([e], IsIncome);
    var expE := Filter([e], IsExpense);
    SumAppend(inc, incE, GrossOf);
    SumAppend(inc, incE, FuelOf);
    SumAppend(inc, incE, FoodOf);
    SumAppend(inc, incE, MaintenanceOf);
    SumAppend(exp, expE, FuelOf);
    SumAppend(exp, expE, FoodOf);
    SumAppend(exp, expE, MaintenanceOf);
    SumAppend(exp, expE, LitersOf);
    SumAppend(entries, [e], KmOf);
  }

  /** Litres are counted from expenses only: an income launch carrying
      litres adds its km but no litres. */
  lemma SummaryLitersIgnoreIncome(entries: seq<Entry>, e: Entry)
    requires IsIncome(e)
    ensures GetWeeklySummary(entries + [e]).totalLiters == GetWeeklySummary(entries).totalLiters
    ensures GetWeeklySummary(entries + [e]).totalKm == GetWeeklySummary(entries).totalKm + OrZero(e.kmDriven)
  {
    SummaryAppend(entries, e);
  }

  /** Booking an expense (non-negative buckets) never raises the net. */
  lemma SummaryAppendExpense(entries: seq<Entry>, e: Entry)
    requires IsExpense(e) && e.fuel >= 0.0 && e.food >= 0.0 && e.maintenance >= 0.0
    ensures GetWeeklySummary(entries + [e]).totalNet <= GetWeeklySummary(entries).totalNet
    ensures GetWeeklySummary(entries + [e]).totalGross == GetWeeklySummary(entries).totalGross
  {
    SummaryAppend(entries, e);
  }

  /** A launch records the factory split when its buckets and net add up to
      its gross. */
  predicate Balanced(e: Entry)
  {
    e.fuel + e.food + e.maintenance + e.netAmount == e.grossAmount
  }

  /** Without overspending, the net of the summary is exactly the sum of
      the nets of the (factory-built) incomes. */
  lemma SummaryNoOverspend(entries: seq<Entry>)
    requires forall i :: 0 <= i < |entries| ==> IsIncome(entries[i]) ==> Balanced(entries[i])
    requires var r := GetWeeklySummary(entries);
      r.totalSpentFuel <= r.totalFuel && r.totalSpentFood <= r.totalFood
      && r.totalSpentMaintenance <= r.totalMaintenance
    ensures GetWeeklySummary(entries).totalNet == Sum(Incomes(entries), NetOf)
  {
    var income := Incomes(entries);
    forall i | 0 <= i < |income|
      ensures GrossOf(income[i]) == FuelOf(income[i]) + FoodOf(income[i]) + MaintenanceOf(income[i]) + NetOf(income[i])
    {
      assert income[i] in entries;
    }
    SumSplit4(income, GrossOf, FuelOf, FoodOf, MaintenanceOf, NetOf);
  }

  /** The summary does not depend on the order of the launches. */
  lemma SummaryPermutation(a: seq<Entry>, b: seq<Entry>)
    requires multiset(a) == multiset(b)
    ensures GetWeeklySummary(a) == GetWeeklySummary(b)
  {
    SumFilterPermutation(a, b, IsIncome, GrossOf);
    SumFilterPermutation(a, b, IsIncome, FuelOf);
    SumFilterPermutation(a, b, IsIncome, FoodOf);
    SumFilterPermutation(a, b, IsIncome, MaintenanceOf);
    SumFilterPermutation(a, b, IsExpense, FuelOf);
    SumFilterPermutation(a, b, IsExpense, FoodOf);
    SumFilterPermutation(a, b, IsExpense, MaintenanceOf);
    SumFilterPermutation(a, b, IsExpense, LitersOf);
    SumPermutation(a, b, KmOf);
  }

  /** One default income of 100 and a fuel expense of 20: 14 reserved for
      fuel, 6 overspent, so fees of 36 and a net of 64. */
  lemma SummaryOverspendExample()
    ensures var inc := CalculateDailyEntry("a", 100.0, "2024-01-01", "10:00", "Loja", DefaultConfig(), None, None, None);
      var exp := CalculateManualExpense("b", 20.0, Fuel, "2024-01-01", "11:00", "", None, None, None);
      var r := GetWeeklySummary([inc, exp]);
      r.totalGross == 100.0 && r.totalFuel == 14.0 && r.totalSpentFuel == 20.0
      && r.totalFees == 36.0 && r.totalNet == 64.0
  {
    var inc := CalculateDailyEntry("a", 100.0, "2024-01-01", "10:00", "Loja", DefaultConfig(), None, None, None);
    var exp := CalculateManualExpense("b", 20.0, Fuel, "2024-01-01", "11:00", "", None, None, None);
    assert inc.grossAmount == 100.0 && inc.fuel == 14.0 && inc.food == 8.0 && inc.maintenance == 8.0;
    assert exp.grossAmount == 0.0 && exp.fuel == 20.0 && exp.food == 0.0 && exp.maintenance == 0.0;
    SummaryOfPair(inc, exp);
    assert Excess(20.0, 14.0) == 6.0;
  }

  /** The summary of one income followed by one expense: the income's
      reserves against the expense's spending. */
  lemma SummaryOfPair(inc: Entry, exp: Entry)
    requires IsIncome(inc) && IsExpense(exp)
    ensures var r := GetWeeklySummary([inc, exp]);
      && r.totalGross == inc.grossAmount
      && r.totalFuel == inc.fuel && r.totalFood == inc.food && r.totalMaintenance == inc.maintenance
      && r.totalSpentFuel == exp.fuel && r.totalSpentFood == exp.food
      && r.totalSpentMaintenance == exp.maintenance
  {
    var s := [inc, exp];
    assert s[1..] == [exp] && [exp][1..] == [];
    assert Filter([exp], IsIncome) == [];
    assert Incomes(s) == [inc] + Filter([exp], IsIncome);
    assert Filter([exp], IsExpense) == [exp];
    assert Expenses(s) == Filter([exp], IsExpense);
    SumSingleton(inc, GrossOf);
    SumSingleton(inc, FuelOf);
    SumSingleton(inc, FoodOf);
    SumSingleton(inc, MaintenanceOf);
    SumSingleton(exp, FuelOf);
    SumSingleton(exp, FoodOf);
    SumSingleton(exp, MaintenanceOf);
  }

  // ---------------------------------------------------------------------
  // Grouping by Monday-start week

  /** The day number of the Monday that starts the week of a launch's date.
      Every caller requires valid dates; an invalid one (which the original
      cannot key either) is put on day 0 here. */
  function WeekKey(e: Entry): (k: int)
    ensures ValidDate(e.date) ==> Weekday(k) == 1 && k <= DayNumber(e.date) <= k + 6
  {
    if ValidDate(e.date) then WeekStart(DayNumber(e.date)) else 0
  }

  predicate AllDatesValid(entries: seq<Entry>)
  {
    forall i :: 0 <= i < |entries| ==> ValidDate(entries[i].date)
  }

  /** One row of the weekly history: the week's summary figures, its number
      of launches and its first and last day (as day numbers). */
  datatype WeekGroup = WeekGroup(
    gross: real,
    net: real,
    spentFuel: real,
    spentFood: real,
    spentMaintenance: real,
    entries: nat,
    startDate: int,
    endDate: int)

  function GroupGrossOf(g: WeekGroup): real { g.gross }
  function GroupEntriesOf(g: WeekGroup): int { g.entries }

  /** The launches of the week starting on day `k`. */
  function WeekOf(entries: seq<Entry>, k: int): seq<Entry>
  {
    Filter(entries, HasKey(WeekKey, k))
  }

  function WeekGroupOf(entries: seq<Entry>, k: int): (g: WeekGroup)
    ensures g.startDate == k && g.endDate == k + 6
    ensures g.entries == Count(entries, HasKey(WeekKey, k))
    ensures g.gross == GetWeeklySummary(WeekOf(entries, k)).totalGross
    ensures g.net == GetWeeklySummary(WeekOf(entries, k)).totalNet
    ensures g.spentFuel == GetWeeklySummary(WeekOf(entries, k)).totalSpentFuel
    ensures g.spentFood == GetWeeklySummary(WeekOf(entries, k)).totalSpentFood
    ensures g.spentMaintenance == GetWeeklySummary(WeekOf(entries, k)).totalSpentMaintenance
  {
    var week := WeekOf(entries, k);
    var s := GetWeeklySummary(week);
    WeekGroup(s.totalGross, s.totalNet, s.totalSpentFuel, s.totalSpentFood, s.totalSpentMaintenance,
              |week|, k, k + 6)
  }

  function GroupsFor(entries: seq<Entry>, keys: seq<int>): (gs: seq<WeekGroup>)
    ensures |gs| == |keys|
    ensures forall i :: 0 <= i < |keys| ==> gs[i] == WeekGroupOf(entries, keys[i])
    ensures forall i :: 0 <= i < |keys| ==>
      gs[i].startDate == keys[i] && gs[i].endDate == keys[i] + 6
      && gs[i].entries == Count(entries, HasKey(WeekKey, keys[i]))
  {
    if keys == [] then [] else [WeekGroupOf(entries, keys[0])] + GroupsFor(entries, keys[1..])
  }

  /** The distinct week starts, latest first. */
  function WeekKeys(entries: seq<Entry>): (ks: seq<int>)
    ensures StrictlyDescending(ks)
    ensures forall y :: y in ks <==> y in Map(entries, WeekKey)
  {
    SortUniqueDesc(Map(entries, WeekKey))
  }

  lemma WeekKeyIsMonday(entries: seq<Entry>, y: int)
    requires AllDatesValid(entries)
    requires y in WeekKeys(entries)
    ensures Weekday(y) == 1
    ensures Count(entries, HasKey(WeekKey, y)) > 0
  {
    var m := Map(entries, WeekKey);
    var j :| 0 <= j < |m| && m[j] == y;
    assert WeekKey(entries[j]) == y;
    assert entries[j] in WeekOf(entries, y);
  }

  /** Launches grouped by the Monday-to-Sunday week of their date, the
      latest week first. */
  function GetWeeklyGroupedSummaries(entries: seq<Entry>): (gs: seq<WeekGroup>)
    requires AllDatesValid(entries)
    ensures forall i, j :: 0 <= i < j < |gs| ==> gs[i].startDate > gs[j].startDate
    ensures forall i :: 0 <= i < |gs| ==>
      Weekday(gs[i].startDate) == 1 && gs[i].endDate == gs[i].startDate + 6 && gs[i].entries > 0
    ensures forall i :: 0 <= i < |gs| ==> gs[i].entries == Count(entries, HasKey(WeekKey, gs[i].startDate))
    ensures forall j :: 0 <= j < |entries| ==> exists i :: 0 <= i < |gs| && gs[i].startDate == WeekKey(entries[j])
  {
    var gs := GroupsFor(entries, WeekKeys(entries));
    GroupsAreNonEmptyWeeks(entries, gs);
    EveryLaunchHasAWeek(entries, gs);
    gs
  }

  lemma GroupsAreNonEmptyWeeks(entries: seq<Entry>, gs: seq<WeekGroup>)
    requires AllDatesValid(entries) && gs == GroupsFor(entries, WeekKeys(entries))
    ensures forall i :: 0 <= i < |gs| ==> Weekday(gs[i].startDate) == 1 && gs[i].entries > 0
  {
    var ks := WeekKeys(entries);
    forall i | 0 <= i < |gs|
      ensures Weekday(gs[i].startDate) == 1 && gs[i].entries > 0
    {
      WeekKeyIsMonday(entries, ks[i]);
    }
  }

  lemma EveryLaunchHasAWeek(entries: seq<Entry>, gs: seq<WeekGroup>)
    requires AllDatesValid(entries) && gs == GroupsFor(entries, WeekKeys(entries))
    ensures forall j :: 0 <= j < |entries| ==> exists i :: 0 <= i < |gs| && gs[i].startDate == WeekKey(entries[j])
  {
    forall j | 0 <= j < |entries|
      ensures exists i :: 0 <= i < |gs| && gs[i].startDate == WeekKey(entries[j])
    {
      var i := LaunchWeek(entries, gs, j);
    }
  }

  /** The position of the week row holding launch `j`. */
  lemma LaunchWeek(entries: seq<Entry>, gs: seq<WeekGroup>, j: int) returns (i: int)
    requires AllDatesValid(entries) && gs == GroupsFor(entries, WeekKeys(entries))
    requires 0 <= j < |entries|
    ensures 0 <= i < |gs| && gs[i].startDate == WeekKey(entries[j])
    ensures gs[i].startDate <= DayNumber(entries[j].date) <= gs[i].endDate
  {
    var ks := WeekKeys(entries);
    var k := WeekKey(entries[j]);
    assert Map(entries, WeekKey)[j] == k;
    assert k in ks;
    i :| 0 <= i < |ks| && ks[i] == k;
  }

  /** Every launch lies in exactly one week row: the one starting on the
      Monday on or before its date. */
  lemma WeeklyGroupingPartition(entries: seq<Entry>, i: int, j: int)
    requires AllDatesValid(entries)
    requires 0 <= j < |entries|
    requires 0 <= i < |GetWeeklyGroupedSummaries(entries)|
    ensures var g := GetWeeklyGroupedSummaries(entries)[i];
      g.startDate <= DayNumber(entries[j].date) <= g.endDate <==> g.startDate == WeekKey(entries[j])
  {
    var g := GetWeeklyGroupedSummaries(entries)[i];
    var d := DayNumber(entries[j].date);
    if g.startDate <= d <= g.endDate {
      WeekStartUnique(d, g.startDate);
    }
  }

  lemma {:induction false} GroupsForCounts(entries: seq<Entry>, ks: seq<int>)
    ensures IntSum(GroupsFor(entries, ks), GroupEntriesOf) == CountPerKey(ks, entries, WeekKey)
  {
    if ks != [] {
      GroupsForCounts(entries, ks[1..]);
      assert GroupsFor(entries, ks)[1..] == GroupsFor(entries, ks[1..]);
    }
  }

  lemma {:induction false} GroupsForGross(entries: seq<Entry>, ks: seq<int>)
    ensures Sum(GroupsFor(entries, ks), GroupGrossOf) == SumPerKey(ks, Incomes(entries), WeekKey, GrossOf)
  {
    if ks != [] {
      GroupsForGross(entries, ks[1..]);
      assert GroupsFor(entries, ks)[1..] == GroupsFor(entries, ks[1..]);
      FilterCommute(entries, HasKey(WeekKey, ks[0]), IsIncome);
    }
  }

  lemma WeekKeysCover(entries: seq<Entry>)
    ensures Distinct(WeekKeys(entries))
    ensures forall x :: x in entries ==> WeekKey(x) in WeekKeys(entries)
  {
    forall x | x in entries
      ensures WeekKey(x) in WeekKeys(entries)
    {
      var j :| 0 <= j < |entries| && entries[j] == x;
      assert Map(entries, WeekKey)[j] == WeekKey(x);
    }
  }

  /** The week rows lose and duplicate nothing: their launch counts add up
      to the number of launches and their gross to the overall gross. */
  lemma WeeklyGroupingTotals(entries: seq<Entry>)
    requires AllDatesValid(entries)
    ensures IntSum(GetWeeklyGroupedSummaries(entries), GroupEntriesOf) == |entries|
    ensures Sum(GetWeeklyGroupedSummaries(entries), GroupGrossOf) == GetWeeklySummary(entries).totalGross
  {
    var ks := WeekKeys(entries);
    WeekKeysCover(entries);
    GroupsForCounts(entries, ks);
    PartitionCount(ks, entries, WeekKey);
    GroupsForGross(entries, ks);
    forall x | x in Incomes(entries)
      ensures WeekKey(x) in ks
    {
    }
    PartitionSum(ks, Incomes(entries), WeekKey, GrossOf);
  }

  // ---------------------------------------------------------------------
  // Grouping by day

  /** One row of the daily history. */
  datatype DayStat = DayStat(gross: real, net: real, date: string, goalMet: bool)

  /** The launches dated `d`. */
  function DayOf(entries: seq<Entry>, d: string): seq<Entry>
  {
    Filter(entries, HasKey(DateOf, d))
  }

  function DayStatOf(entries: seq<Entry>, config: AppConfig, d: string): (r: DayStat)
    ensures r.date == d
    ensures r.gross == GetWeeklySummary(DayOf(entries, d)).totalGross
    ensures r.net == GetWeeklySummary(DayOf(entries, d)).totalNet
    ensures r.goalMet <==> r.gross >= config.dailyGoal
  {
    var s := GetWeeklySummary(DayOf(entries, d));
    DayStat(s.totalGross, s.totalNet, d, s.totalGross >= config.dailyGoal)
  }

  function StatsFor(entries: seq<Entry>, config: AppConfig, ds: seq<string>): (r: seq<DayStat>)
    ensures |r| == |ds|
    ensures forall i :: 0 <= i < |ds| ==> r[i] == DayStatOf(entries, config, ds[i])
  {
    if ds == [] then [] else [DayStatOf(entries, config, ds[0])] + StatsFor(entries, config, ds[1..])
  }

  /** The distinct dates, latest first. */
  function DailyDates(entries: seq<Entry>): (ds: seq<string>)
    ensures forall i, j :: 0 <= i < j < |ds| ==> Less(ds[j], ds[i])
    ensures forall y :: y in ds <==> y in Map(entries, DateOf)
  {
    var up := SortUnique(Map(entries, DateOf));
    ReverseAscending(up);
    ReverseMembership(up);
    Reverse(up)
  }

  /** One row per distinct date, latest date first, each with its gross,
      net and whether it reached the daily goal. */
  function GetDailyStats(entries: seq<Entry>, config: AppConfig): (r: seq<DayStat>)
    ensures forall i, j :: 0 <= i < j < |r| ==> Less(r[j].date, r[i].date)
    ensures forall i :: 0 <= i < |r| ==> r[i].date in Map(entries, DateOf)
    ensures forall j :: 0 <= j < |entries| ==> exists i :: 0 <= i < |r| && r[i].date == entries[j].date
    ensures forall i :: 0 <= i < |r| ==> (r[i].goalMet <==> r[i].gross >= config.dailyGoal)
    ensures forall i :: 0 <= i < |r| ==> r[i].gross == GetWeeklySummary(DayOf(entries, r[i].date)).totalGross
  {
    var ds := DailyDates(entries);
    forall j | 0 <= j < |entries|
      ensures entries[j].date in ds
    {
      assert Map(entries, DateOf)[j] == entries[j].date;
    }
    StatsFor(entries, config, ds)
  }

  /** There are exactly as many day rows as distinct dates. */
  lemma DailyStatsRowCount(entries: seq<Entry>, config: AppConfig)
    ensures |GetDailyStats(entries, config)| == |Elems(Map(entries, DateOf))|
  {
    var ds := DailyDates(entries);
    forall i, j | 0 <= i < j < |ds|
      ensures ds[i] != ds[j]
    {
      LessIrreflexive(ds[i]);
    }
    DistinctCardinality(ds);
    assert Elems(ds) == Elems(Map(entries, DateOf));
  }

  // ---------------------------------------------------------------------
  // Fuel ratios

  /** A fuel expense: no gross and booked under the fuel category. */
  predicate IsFuelExpense(e: Entry)
  {
    e.grossAmount == 0.0 && e.category == Some(Fuel)
  }

  function FuelSpent(entries: seq<Entry>): real { Sum(Filter(entries, IsFuelExpense), FuelOf) }
  function FuelLiters(entries: seq<Entry>): real { Sum(Filter(entries, IsFuelExpense), LitersOf) }
  function TotalKm(entries: seq<Entry>): real { Sum(entries, KmOf) }

  /** `r` is `num / den` when the denominator is positive, and 0 otherwise. */
  predicate IsRatio(r: real, num: real, den: real)
  {
    (den > 0.0 ==> r * den == num) && (den <= 0.0 ==> r == 0.0)
  }

  /** `num / den` when the denominator is positive, otherwise 0. */
  function GuardedRatio(num: real, den: real): (r: real)
    ensures IsRatio(r, num, den)
  {
    if den > 0.0 then num / den else 0.0
  }

  datatype FuelMetrics = FuelMetrics(
    costPerKm: real,
    costPerDelivery: real,
    kmPerLiter: real,
    avgPricePerLiter: real,
    totalLiters: real)

  /** Fuel cost per km, per delivery and per litre, and km per litre; each
      ratio is 0 when its denominator is not positive. */
  function CalculateFuelMetrics(entries: seq<Entry>): (m: FuelMetrics)
    ensures m.totalLiters == FuelLiters(entries)
    ensures IsRatio(m.costPerKm, FuelSpent(entries), TotalKm(entries))
    ensures IsRatio(m.costPerDelivery, FuelSpent(entries), |Incomes(entries)| as real)
    ensures IsRatio(m.kmPerLiter, TotalKm(entries), FuelLiters(entries))
    ensures IsRatio(m.avgPricePerLiter, FuelSpent(entries), FuelLiters(entries))
  {
    var spent, km, liters := FuelSpent(entries), TotalKm(entries), FuelLiters(entries);
    FuelMetrics(GuardedRatio(spent, km), GuardedRatio(spent, |Incomes(entries)| as real),
                GuardedRatio(km, liters), GuardedRatio(spent, liters), liters)
  }

  /** Only fuel-category expenses feed the fuel ratios: a food or
      maintenance expense with litres changes neither the litres nor the
      price per litre, although the summary counts its litres. */
  lemma FuelMetricsCountFuelOnly(entries: seq<Entry>, e: Entry)
    requires IsExpense(e) && e.category != Some(Fuel) && e.kmDriven == None
    ensures CalculateFuelMetrics(entries + [e]) == CalculateFuelMetrics(entries)
    ensures GetWeeklySummary(entries + [e]).totalLiters == GetWeeklySummary(entries).totalLiters + OrZero(e.liters)
  {
    FilterAppend(entries, [e], IsFuelExpense);
    FilterAppend(entries, [e], IsIncome);
    assert Filter([e], IsFuelExpense) == [];
    assert Filter([e], IsIncome) == [];
    SumAppend(entries, [e], KmOf);
    assert Filter(entries + [e], IsFuelExpense) == Filter(entries, IsFuelExpense);
    SummaryAppend(entries, e);
  }

  // ---------------------------------------------------------------------
  // Clock arithmetic

  /** A wall-clock time "HH:mm" with hours 00-23 and minutes 00-59. */
  predicate ValidClock(s: string)
  {
    |s| == 5 && s[2] == ':' && IsDigit(s[0]) && IsDigit(s[1]) && IsDigit(s[3]) && IsDigit(s[4])
    && 10 * DigitValue(s[0]) + DigitValue(s[1]) < 24
    && 10 * DigitValue(s[3]) + DigitValue(s[4]) < 60
  }

  /** Minutes since midnight. */
  function ClockMinutes(s: string): (n: int)
    requires ValidClock(s)
    ensures 0 <= n < 1440
  {
    (10 * DigitValue(s[0]) + DigitValue(s[1])) * 60 + 10 * DigitValue(s[3]) + DigitValue(s[4])
  }

  /** Minutes from `start` to `end`, going past midnight when `end` is
      earlier: the unique value in [0, 1440) congruent to the difference. */
  function Elapsed(start: string, end: string): (n: int)
    requires ValidClock(start) && ValidClock(end)
    ensures 0 <= n < 1440
    ensures (n - (ClockMinutes(end) - ClockMinutes(start))) % 1440 == 0
  {
    var d := ClockMinutes(end) - ClockMinutes(start);
    if d < 0 then d + 1440 else d
  }

  /** Worked minutes of a session: elapsed time less the break, never
      negative. */
  function CalculateDuration(start: string, end: string, breakMinutes: int): (r: int)
    requires ValidClock(start) && ValidClock(end)
    ensures r >= 0
    ensures breakMinutes >= 0 ==> r <= 1439
    ensures r == 0 <==> Elapsed(start, end) <= breakMinutes
    ensures r > 0 ==> r + breakMinutes == Elapsed(start, end)
    ensures start == end && breakMinutes >= 0 ==> r == 0
  {
    var total := Elapsed(start, end);
    if total - breakMinutes > 0 then total - breakMinutes else 0
  }

  /** A night shift 22:00-02:00 with a 30-minute break is 210 minutes. */
  lemma DurationAcrossMidnight()
    ensures ValidClock("22:00") && ValidClock("02:00")
    ensures CalculateDuration("22:00", "02:00", 30) == 210
  {
    assert ClockMinutes("22:00") == 1320;
    assert ClockMinutes("02:00") == 120;
  }

  datatype HoursMinutes = HoursMinutes(h: int, m: int)

  /** Splits a minute count into whole hours (rounded down) and the
      remaining minutes, as shown in "Xh Ym". */
  function FormatDuration(minutes: int): (r: HoursMinutes)
    ensures minutes >= 0 ==> 60 * r.h + r.m == minutes && 0 <= r.m < 60
    ensures minutes >= 0 ==> r.h >= 0
    ensures minutes < 0 ==> r.h < 0 && -60 < r.m <= 0 && (minutes - r.m) % 60 == 0
  {
    // `Math.floor(minutes / 60)` is Dafny's `/` by a positive divisor; the
    // remainder `%` of JavaScript keeps the sign of the dividend.
    HoursMinutes(minutes / 60, if minutes >= 0 then minutes % 60 else -((-minutes) % 60))
  }

  /** For a negative count the two parts do not add back up: -30 minutes
      shows as "-1h -30m". No duration the application computes is
      negative. */
  lemma FormatNegativeDuration()
    ensures FormatDuration(-30) == HoursMinutes(-1, -30)
  {
  }

  /** A percentage `part / whole * 100` scales back to the part, and it
      reaches 100 exactly when the part reaches a positive whole. */
  lemma PercentScale(part: real, whole: real, p: real)
    requires whole != 0.0 && p == part / whole * 100.0
    ensures p * whole == part * 100.0
    ensures whole > 0.0 ==> (p >= 100.0 <==> part >= whole)
    ensures whole > 0.0 && part >= 0.0 ==> p >= 0.0
  {
    var q := part / whole;
    assert q * whole == part;
    assert p * whole == part * 100.0;
    if whole > 0.0 {
      assert p >= 100.0 <==> p * whole >= 100.0 * whole;
    }
  }
}
