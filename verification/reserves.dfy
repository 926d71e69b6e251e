/** The reserves screen: per category, what the incomes reserved, what the
    expenses spent and the balance; the share of the reserve used; and the
    cost of each week. */
module Reserves {
  import opened Types
  import opened Seqs
  import opened Calculations
  import opened Maintenance

  /** One figure per reserve category. */
  datatype Buckets = Buckets(fuel: real, food: real, maintenance: real)

  function Total(b: Buckets): real { b.fuel + b.food + b.maintenance }

  datatype ReserveBalances = ReserveBalances(reserves: Buckets, spent: Buckets, balances: Buckets, total: real)

  /** Reserves summed over incomes, spending over launches with no gross,
      the balance of each category, and the overall balance computed as
      all reserves less all spending. */
  function GetReserveBalances(entries: seq<Entry>): (r: ReserveBalances)
    ensures var s := GetWeeklySummary(entries);
      && r.reserves == Buckets(s.totalFuel, s.totalFood, s.totalMaintenance)
      && r.spent == Buckets(s.totalSpentFuel, s.totalSpentFood, s.totalSpentMaintenance)
    ensures r.balances.fuel == r.reserves.fuel - r.spent.fuel
    ensures r.balances.food == r.reserves.food - r.spent.food
    ensures r.balances.maintenance == r.reserves.maintenance - r.spent.maintenance
    ensures r.total == Total(r.balances)
  {
    var income := Incomes(entries);
    var expense := Expenses(entries);
    var reserves := Buckets(Sum(income, FuelOf), Sum(income, FoodOf), Sum(income, MaintenanceOf));
    var spent := Buckets(Sum(expense, FuelOf), Sum(expense, FoodOf), Sum(expense, MaintenanceOf));
    ReserveBalances(reserves, spent,
                    Buckets(reserves.fuel - spent.fuel, reserves.food - spent.food,
                            reserves.maintenance - spent.maintenance),
                    Total(reserves) - Total(spent))
  }

  /** The overall balance and the summary's net together are the gross
      less everything spent less the overspending fees: reserving moves
      money from the net into the balance and nothing is lost. */
  lemma BalanceAgainstSummary(entries: seq<Entry>)
    ensures var r, s := GetReserveBalances(entries), GetWeeklySummary(entries);
      s.totalNet + r.total
        == s.totalGross - Total(r.spent)
           - (Excess(s.totalSpentFuel, s.totalFuel) + Excess(s.totalSpentFood, s.totalFood)
              + Excess(s.totalSpentMaintenance, s.totalMaintenance))
  {
  }

  /** The maintenance card of this screen and the maintenance screen show
      the same balance. */
  lemma MaintenanceScreensAgree(entries: seq<Entry>)
    requires forall i :: 0 <= i < |entries| ==> IsExpense(entries[i]) ==> entries[i].maintenance >= 0.0
    ensures GetReserveBalances(entries).balances.maintenance == MaintenanceBalance(entries).balance
  {
    MaintenanceBalanceMatchesSummary(entries);
  }

  /** The share of a reserve already spent, as a percentage capped at 100;
      0 when nothing was reserved. */
  function UsagePercent(reserved: real, spent: real): (p: real)
    ensures p <= 100.0
    ensures reserved <= 0.0 ==> p == 0.0
    ensures spent >= 0.0 ==> p >= 0.0
    ensures reserved > 0.0 ==> (p == 100.0 <==> spent >= reserved)
    ensures reserved > 0.0 && spent < reserved ==> p * reserved == spent * 100.0
  {
    if reserved > 0.0 then
      var ratio := spent / reserved * 100.0;
      PercentScale(spent, reserved, ratio);
      if ratio < 100.0 then ratio else 100.0
    else 0.0
  }

  /** The share of each income set aside, in percent. */
  function TotalReservedPerc(config: AppConfig): (p: real)
    ensures p / 100.0 == config.percFuel + config.percFood + config.percMaintenance
  {
    (config.percFuel + config.percFood + config.percMaintenance) * 100.0
  }

  lemma DefaultReservesThirtyPercent()
    ensures TotalReservedPerc(DefaultConfig()) == 30.0
  {
  }

  /** The cost shown for a week: its three kinds of spending. */
  function WeeklyCost(g: WeekGroup): real
  {
    g.spentFuel + g.spentFood + g.spentMaintenance
  }

  /** Each week's cost is the spending of the launches dated in that week. */
  lemma WeeklyCostIsWeekSpending(entries: seq<Entry>, i: int)
    requires AllDatesValid(entries)
    requires 0 <= i < |GetWeeklyGroupedSummaries(entries)|
    ensures var g := GetWeeklyGroupedSummaries(entries)[i];
      var s := GetWeeklySummary(WeekOf(entries, g.startDate));
      WeeklyCost(g) == s.totalSpentFuel + s.totalSpentFood + s.totalSpentMaintenance
  {
    var gs := GetWeeklyGroupedSummaries(entries);
    assert gs == GroupsFor(entries, WeekKeys(entries));
  }
}
