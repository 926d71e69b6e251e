/** The report screen: the launches and work sessions of an inclusive date
    range, their summary, totals per payment method and per category, the
    worked minutes and the zero-guarded averages. */
module Reports {
  import opened Types
  import opened Seqs
  import opened Strings
  import opened Sorting
  import opened Calculations
  import opened TimeTracking
  import opened Reserves

  /** `startDate <= d && d <= endDate` on "YYYY-MM-DD" strings. */
  predicate InReportRange(d: string, startDate: string, endDate: string)
  {
    !Less(d, startDate) && !Less(endDate, d)
  }

  function EntryInRange(startDate: string, endDate: string): Entry -> bool
  {
    (e: Entry) => InReportRange(e.date, startDate, endDate)
  }

  function SessionInRange(startDate: string, endDate: string): TimeEntry -> bool
  {
    (t: TimeEntry) => InReportRange(t.date, startDate, endDate)
  }

  /** The payment method a launch is counted under: a missing one is PIX. */
  function EffectiveMethod(e: Entry): Payment
  {
    if e.paymentMethod.Some? then e.paymentMethod.value else Pix
  }

  /** The total moved by an expense: its three buckets. */
  function ExpenseTotalOf(e: Entry): real { e.fuel + e.food + e.maintenance }

  /** Some launch of `s` is counted under method `p`. */
  predicate PaidWith(s: seq<Entry>, p: Payment)
  {
    exists i :: 0 <= i < |s| && EffectiveMethod(s[i]) == p
  }

  lemma PaidWithAppend(init: seq<Entry>, e: Entry, p: Payment)
    ensures PaidWith(init + [e], p) <==> PaidWith(init, p) || EffectiveMethod(e) == p
  {
    var s := init + [e];
    if PaidWith(s, p) && EffectiveMethod(e) != p {
      var i :| 0 <= i < |s| && EffectiveMethod(s[i]) == p;
      assert s[i] == init[i];
    }
    if PaidWith(init, p) {
      var i :| 0 <= i < |init| && EffectiveMethod(init[i]) == p;
      assert s[i] == init[i];
    }
    if EffectiveMethod(e) == p {
      assert s[|init|] == e;
    }
  }

  /** One step of the accumulation: the launch adds `f` to its method's
      total, starting the method at 0. */
  function AddPayment(acc: map<Payment, real>, e: Entry, f: Entry -> real): map<Payment, real>
  {
    var p := EffectiveMethod(e);
    acc[p := (if p in acc then acc[p] else 0.0) + f(e)]
  }

  lemma AddPaymentAt(acc: map<Payment, real>, e: Entry, f: Entry -> real, p: Payment)
    ensures p in AddPayment(acc, e, f) <==> p in acc || EffectiveMethod(e) == p
    ensures EffectiveMethod(e) == p ==> AddPayment(acc, e, f)[p] == (if p in acc then acc[p] else 0.0) + f(e)
    ensures EffectiveMethod(e) != p && p in acc ==> AddPayment(acc, e, f)[p] == acc[p]
  {
  }

  /** Per payment method, the sum of `f` over the launches paid that way,
      accumulated in list order; a method appears iff some launch uses it. */
  function TotalsByMethod(s: seq<Entry>, f: Entry -> real): (m: map<Payment, real>)
    ensures forall p :: p in m <==> PaidWith(s, p)
    decreases |s|
  {
    if s == [] then map[]
    else
      var init := s[..|s| - 1];
      var e := s[|s| - 1];
      assert s == init + [e];
      var acc := TotalsByMethod(init, f);
      forall p
        ensures PaidWith(s, p) <==> p in AddPayment(acc, e, f)
      {
        PaidWithAppend(init, e, p);
        AddPaymentAt(acc, e, f, p);
      }
      AddPayment(acc, e, f)
  }

  /** Each method's total is the sum over the launches paid that way. */
  lemma {:induction false} TotalsByMethodPerKey(s: seq<Entry>, f: Entry -> real, p: Payment)
    ensures p in TotalsByMethod(s, f) ==>
      TotalsByMethod(s, f)[p] == Sum(Filter(s, HasKey(EffectiveMethod, p)), f)
    ensures p !in TotalsByMethod(s, f) ==> Sum(Filter(s, HasKey(EffectiveMethod, p)), f) == 0.0
    decreases |s|
  {
    if s != [] {
      var init := s[..|s| - 1];
      var e := s[|s| - 1];
      assert s == init + [e];
      TotalsByMethodPerKey(init, f, p);
      TotalsStep(init, e, f, p);
    }
  }

  lemma TotalsStep(init: seq<Entry>, e: Entry, f: Entry -> real, p: Payment)
    requires p in TotalsByMethod(init, f) ==>
      TotalsByMethod(init, f)[p] == Sum(Filter(init, HasKey(EffectiveMethod, p)), f)
    requires p !in TotalsByMethod(init, f) ==> Sum(Filter(init, HasKey(EffectiveMethod, p)), f) == 0.0
    ensures p in TotalsByMethod(init + [e], f) ==>
      TotalsByMethod(init + [e], f)[p] == Sum(Filter(init + [e], HasKey(EffectiveMethod, p)), f)
    ensures p !in TotalsByMethod(init + [e], f) ==> Sum(Filter(init + [e], HasKey(EffectiveMethod, p)), f) == 0.0
  {
    var s := init + [e];
    assert s[..|s| - 1] == init && s[|s| - 1] == e;
    var q := HasKey(EffectiveMethod, p);
    var acc := TotalsByMethod(init, f);
    assert TotalsByMethod(s, f) == AddPayment(acc, e, f);
    AddPaymentAt(acc, e, f, p);
    var rest := Sum(Filter(init, q), f);
    var total := Sum(Filter(s, q), f);
    FilterAppend(init, [e], q);
    SumAppend(Filter(init, q), Filter([e], q), f);
    if q(e) {
      assert Filter([e], q) == [e];
      SumSingleton(e, f);
      assert total == rest + f(e);
    } else {
      assert Filter([e], q) == [];
      assert total == rest;
    }
  }

  const AllPayments: seq<Payment> := [Money, Pix, Debito, Caderno]

  /** A method's value in a per-method map, 0 when absent. */
  function MethodValue(m: map<Payment, real>, p: Payment): real
  {
    if p in m then m[p] else 0.0
  }

  /** The sum of the values of a per-method map. */
  function MethodTotal(m: map<Payment, real>): real
  {
    MethodValue(m, Money) + MethodValue(m, Pix) + MethodValue(m, Debito) + MethodValue(m, Caderno)
  }

  /** A method's total, absent or not, is the sum over the launches paid
      that way. */
  lemma MethodValuePerKey(s: seq<Entry>, f: Entry -> real, p: Payment)
    ensures MethodValue(TotalsByMethod(s, f), p) == Sum(Filter(s, HasKey(EffectiveMethod, p)), f)
  {
    TotalsByMethodPerKey(s, f, p);
  }

  /** The per-method totals lose and duplicate nothing: they add up to the
      sum over all launches. */
  lemma MethodTotalIsSum(s: seq<Entry>, f: Entry -> real)
    ensures MethodTotal(TotalsByMethod(s, f)) == Sum(s, f)
  {
    MethodTotalPerKey(s, f);
    PerKeyOfFour(s, f);
    PaymentsPartition(s, f);
  }

  lemma PaymentsPartition(s: seq<Entry>, f: Entry -> real)
    ensures SumPerKey(AllPayments, s, EffectiveMethod, f) == Sum(s, f)
  {
    PaymentsDistinct();
    forall x | x in s
      ensures EffectiveMethod(x) in AllPayments
    {
      MethodListed(EffectiveMethod(x));
    }
    PartitionSum(AllPayments, s, EffectiveMethod, f);
  }

  lemma MethodListed(p: Payment)
    ensures p in AllPayments
  {
    match p
    case Money => assert AllPayments[0] == p;
    case Pix => assert AllPayments[1] == p;
    case Debito => assert AllPayments[2] == p;
    case Caderno => assert AllPayments[3] == p;
  }

  lemma PaymentsDistinct()
    ensures Distinct(AllPayments)
  {
  }

  lemma MethodTotalPerKey(s: seq<Entry>, f: Entry -> real)
    ensures MethodTotal(TotalsByMethod(s, f))
         == Sum(Filter(s, HasKey(EffectiveMethod, Money)), f) + Sum(Filter(s, HasKey(EffectiveMethod, Pix)), f)
          + Sum(Filter(s, HasKey(EffectiveMethod, Debito)), f) + Sum(Filter(s, HasKey(EffectiveMethod, Caderno)), f)
  {
    MethodValuePerKey(s, f, Money);
    MethodValuePerKey(s, f, Pix);
    MethodValuePerKey(s, f, Debito);
    MethodValuePerKey(s, f, Caderno);
  }

  lemma PerKeyOfFour(s: seq<Entry>, f: Entry -> real)
    ensures SumPerKey(AllPayments, s, EffectiveMethod, f)
         == Sum(Filter(s, HasKey(EffectiveMethod, Money)), f) + Sum(Filter(s, HasKey(EffectiveMethod, Pix)), f)
          + Sum(Filter(s, HasKey(EffectiveMethod, Debito)), f) + Sum(Filter(s, HasKey(EffectiveMethod, Caderno)), f)
  {
    var key := EffectiveMethod;
    var ks := AllPayments;
    assert ks[1..] == [Pix, Debito, Caderno];
    assert [Pix, Debito, Caderno][1..] == [Debito, Caderno];
    assert [Debito, Caderno][1..] == [Caderno];
    assert [Caderno][1..] == [];
    assert SumPerKey([Caderno], s, key, f) == Sum(Filter(s, HasKey(key, Caderno)), f) + SumPerKey([], s, key, f);
    assert SumPerKey([Debito, Caderno], s, key, f)
        == Sum(Filter(s, HasKey(key, Debito)), f) + SumPerKey([Caderno], s, key, f);
    assert SumPerKey([Pix, Debito, Caderno], s, key, f)
        == Sum(Filter(s, HasKey(key, Pix)), f) + SumPerKey([Debito, Caderno], s, key, f);
  }

  /** The four averages of the report. */
  datatype Averages = Averages(valuePerLaunch: real, kmPerLaunch: real, fuelPerLaunch: real, grossPerHour: real)

  /** Every average is 0 when there is nothing to divide by, and otherwise
      times its denominator gives back its total; the hourly figure divides
      by the worked minutes over 60. */
  function ReportAverages(gross: real, km: real, fuelReserved: real, count: nat, minutes: int): (a: Averages)
    ensures count == 0 ==> a.valuePerLaunch == 0.0 && a.kmPerLaunch == 0.0 && a.fuelPerLaunch == 0.0
    ensures count > 0 ==> a.valuePerLaunch * count as real == gross
    ensures count > 0 ==> a.kmPerLaunch * count as real == km
    ensures count > 0 ==> a.fuelPerLaunch * count as real == fuelReserved
    ensures minutes <= 0 ==> a.grossPerHour == 0.0
    ensures minutes > 0 ==> a.grossPerHour * minutes as real == gross * 60.0
  {
    var hours := minutes as real / 60.0;
    var perHour := GuardedRatio(gross, hours);
    PerHourScales(gross, minutes, perHour);
    Averages(GuardedRatio(gross, count as real), GuardedRatio(km, count as real),
             GuardedRatio(fuelReserved, count as real), perHour)
  }

  lemma PerHourScales(gross: real, minutes: int, perHour: real)
    requires minutes > 0 ==> perHour * (minutes as real / 60.0) == gross
    ensures minutes > 0 ==> perHour * minutes as real == gross * 60.0
  {
  }

  datatype Report = Report(
    summary: WeeklySummary,
    quickLaunchesCount: nat,
    totalMinutes: int,
    totalExpenses: real,
    totalKm: real,
    averages: Averages,
    maintenanceEntries: seq<Entry>,
    totalFuelSpent: real,
    totalFoodSpent: real,
    totalMaintenanceSpent: real,
    filteredEntries: seq<Entry>,
    uniqueStores: seq<string>,
    storeDeliveries: seq<Entry>,
    totalsByPayment: map<Payment, real>,
    expenseTotalsByMethod: map<Payment, real>,
    expenseTotalsByCategory: Buckets)

  /** The names of the stores of all incomes, whatever the range, without
      repetition and in ascending order. */
  function UniqueStores(entries: seq<Entry>): (r: seq<string>)
    ensures StrictlyAscending(r)
    ensures forall y :: y in r <==> exists i :: 0 <= i < |entries| && IsIncome(entries[i]) && entries[i].storeName == y
  {
    var names := Map(Incomes(entries), StoreOf);
    forall y | y in names
      ensures exists i :: 0 <= i < |entries| && IsIncome(entries[i]) && entries[i].storeName == y
    {
      var k :| 0 <= k < |names| && names[k] == y;
      assert Incomes(entries)[k] in entries;
    }
    forall i | 0 <= i < |entries| && IsIncome(entries[i])
      ensures entries[i].storeName in names
    {
      assert entries[i] in Incomes(entries);
      var k :| 0 <= k < |Incomes(entries)| && Incomes(entries)[k] == entries[i];
      assert names[k] == entries[i].storeName;
    }
    SortUnique(names)
  }

  /** The incomes of the selected store; none while "all" is selected (so
      a store named "all" cannot be inspected). */
  function StoreDeliveries(income: seq<Entry>, selectedStore: string): (r: seq<Entry>)
    ensures selectedStore == "all" ==> r == []
    ensures selectedStore != "all" ==> forall e :: e in r <==> e in income && e.storeName == selectedStore
  {
    if selectedStore == "all" then []
    else
      var r := Filter(income, HasKey(StoreOf, selectedStore));
      FilterMembership(income, HasKey(StoreOf, selectedStore));
      assert forall e :: HasKey(StoreOf, selectedStore)(e) <==> e.storeName == selectedStore;
      r
  }

  /** The expenses that touched the maintenance bucket, in list order. */
  function MaintenanceEntries(expense: seq<Entry>): (r: seq<Entry>)
    ensures forall e :: e in r <==> e in expense && e.maintenance > 0.0
  {
    var touches := (e: Entry) => e.maintenance > 0.0;
    FilterMembership(expense, touches);
    Filter(expense, touches)
  }

  /** The worked minutes of the sessions that have both a start and an end:
      never negative, at least the minutes of each closed session, and 0
      exactly when no closed session counts a minute. */
  function TotalMinutes(sessions: seq<TimeEntry>): (n: int)
    ensures n >= 0
    ensures forall i :: 0 <= i < |sessions| && IsClosed(sessions[i]) ==> SessionMinutes(sessions[i]) <= n
    ensures n == 0 <==> forall i :: 0 <= i < |sessions| && IsClosed(sessions[i]) ==> SessionMinutes(sessions[i]) == 0
  {
    IntSumFilterBounds(sessions, IsClosed, SessionMinutes);
    IntSumFilterZero(sessions, IsClosed, SessionMinutes);
    IntSum(Filter(sessions, IsClosed), SessionMinutes)
  }

  /** An open session adds nothing to the worked minutes; a closed one adds
      its own. */
  lemma TotalMinutesAppend(sessions: seq<TimeEntry>, t: TimeEntry)
    ensures TotalMinutes(sessions + [t]) == TotalMinutes(sessions) + (if IsClosed(t) then SessionMinutes(t) else 0)
  {
    FilterAppend(sessions, [t], IsClosed);
    IntSumAppend(Filter(sessions, IsClosed), Filter([t], IsClosed), SessionMinutes);
  }

  /** The report of the range `[startDate, endDate]`. */
  function GetReport(entries: seq<Entry>, sessions: seq<TimeEntry>, startDate: string, endDate: string,
                     selectedStore: string): (r: Report)
    ensures r.filteredEntries == Filter(entries, EntryInRange(startDate, endDate))
    ensures r.summary == GetWeeklySummary(r.filteredEntries)
    ensures r.quickLaunchesCount == Count(r.filteredEntries, IsIncome)
    ensures r.totalKm == r.summary.totalKm
    ensures r.totalExpenses == r.summary.totalSpentFuel + r.summary.totalSpentFood + r.summary.totalSpentMaintenance
    ensures r.expenseTotalsByCategory
         == Buckets(r.summary.totalSpentFuel, r.summary.totalSpentFood, r.summary.totalSpentMaintenance)
    ensures r.totalMinutes == TotalMinutes(Filter(sessions, SessionInRange(startDate, endDate)))
    ensures r.totalFuelSpent == r.summary.totalSpentFuel
    ensures r.totalFoodSpent == r.summary.totalSpentFood
    ensures r.totalMaintenanceSpent == r.summary.totalSpentMaintenance
    ensures r.maintenanceEntries == MaintenanceEntries(Expenses(r.filteredEntries))
    ensures r.averages == ReportAverages(r.summary.totalGross, r.summary.totalKm,
                                         Sum(Incomes(r.filteredEntries), FuelOf), r.quickLaunchesCount, r.totalMinutes)
    ensures r.uniqueStores == UniqueStores(entries)
    ensures r.storeDeliveries == StoreDeliveries(Incomes(r.filteredEntries), selectedStore)
    ensures r.totalsByPayment == TotalsByMethod(Incomes(r.filteredEntries), GrossOf)
    ensures r.expenseTotalsByMethod == TotalsByMethod(Expenses(r.filteredEntries), ExpenseTotalOf)
  {
    var filtered := Filter(entries, EntryInRange(startDate, endDate));
    var filteredTime := Filter(sessions, SessionInRange(startDate, endDate));
    var summary := GetWeeklySummary(filtered);
    var income := Incomes(filtered);
    var expense := Expenses(filtered);
    var maintenance := MaintenanceEntries(expense);
    var count := |income|;
    var minutes := TotalMinutes(filteredTime);
    var fuelSpent := Sum(expense, FuelOf);
    var foodSpent := Sum(expense, FoodOf);
    var maintenanceSpent := Sum(expense, MaintenanceOf);
    var totalFuelReserved := Sum(income, FuelOf);
    Report(summary, count, minutes, fuelSpent + foodSpent + maintenanceSpent, summary.totalKm,
           ReportAverages(summary.totalGross, summary.totalKm, totalFuelReserved, count, minutes),
           maintenance, fuelSpent, foodSpent, maintenanceSpent, filtered,
           UniqueStores(entries), StoreDeliveries(income, selectedStore),
           TotalsByMethod(income, GrossOf), TotalsByMethod(expense, ExpenseTotalOf),
           Buckets(fuelSpent, foodSpent, maintenanceSpent))
  }

  /** The report keeps exactly the launches dated inside the range, both
      ends included. */
  lemma ReportRangeInclusive(entries: seq<Entry>, sessions: seq<TimeEntry>, startDate: string, endDate: string,
                             selectedStore: string, e: Entry)
    ensures e in GetReport(entries, sessions, startDate, endDate, selectedStore).filteredEntries
        <==> e in entries && !Less(e.date, startDate) && !Less(endDate, e.date)
  {
    FilterMembership(entries, EntryInRange(startDate, endDate));
  }

  /** The payment-method breakdown of the incomes adds up to the gross. */
  lemma PaymentTotalsSumToGross(entries: seq<Entry>, sessions: seq<TimeEntry>, startDate: string,
                                endDate: string, selectedStore: string)
    ensures var r := GetReport(entries, sessions, startDate, endDate, selectedStore);
      MethodTotal(r.totalsByPayment) == r.summary.totalGross
  {
    var r := GetReport(entries, sessions, startDate, endDate, selectedStore);
    MethodTotalIsSum(Incomes(r.filteredEntries), GrossOf);
  }

  /** The payment-method breakdown of the expenses adds up to the total
      spent. */
  lemma ExpenseMethodTotalsSumToTotal(entries: seq<Entry>, sessions: seq<TimeEntry>, startDate: string,
                                      endDate: string, selectedStore: string)
    ensures var r := GetReport(entries, sessions, startDate, endDate, selectedStore);
      MethodTotal(r.expenseTotalsByMethod) == r.totalExpenses
  {
    var r := GetReport(entries, sessions, startDate, endDate, selectedStore);
    var expense := Expenses(r.filteredEntries);
    MethodTotalIsSum(expense, ExpenseTotalOf);
    SumSplit3(expense, ExpenseTotalOf, FuelOf, FoodOf, MaintenanceOf);
  }

  /** A launch missing its payment method is counted as PIX. */
  lemma MissingMethodCountsAsPix(e: Entry)
    requires IsIncome(e) && e.paymentMethod.None?
    ensures TotalsByMethod([e], GrossOf) == map[Pix := e.grossAmount]
  {
    assert [e][..0] == [];
  }
}
