/** The history screen: the launch filter (optional inclusive date range,
    category and payment method) with the latest launch first, the derived
    category of a launch, the goal tally per day and the paid toggle. */
module History {
  import opened Types
  import opened Seqs
  import opened Strings
  import opened Calculations

  /** The filter form. An empty date means "no bound"; `None` means "all". */
  datatype HistoryFilter = HistoryFilter(
    startDate: string,
    endDate: string,
    category: Option<Category>,
    payment: Option<Payment>)

  const NoFilter := HistoryFilter("", "", None, None)

  /** The category a launch is shown and filtered under: the stored one, or
      else income for a positive gross, else the first bucket with a
      positive amount among fuel and food, else maintenance. */
  function DerivedCategory(e: Entry): (c: Category)
    ensures e.category.Some? ==> c == e.category.value
    ensures e.category.None? && IsIncome(e) ==> c == Income
    ensures e.category.None? && !IsIncome(e) ==> c in {Fuel, Food, Maintenance}
    ensures e.category.None? && !IsIncome(e) && e.fuel > 0.0 ==> c == Fuel
    ensures e.category.None? && !IsIncome(e) && e.fuel <= 0.0 && e.food > 0.0 ==> c == Food
    ensures e.category.None? && !IsIncome(e) && e.fuel <= 0.0 && e.food <= 0.0 ==> c == Maintenance
  {
    if e.category.Some? then e.category.value
    else if e.grossAmount > 0.0 then Income
    else if e.fuel > 0.0 then Fuel
    else if e.food > 0.0 then Food
    else Maintenance
  }

  /** A launch built by the expense factory without a stored category is
      put back under the category it was booked in. */
  lemma DerivedCategoryOfExpense(id: string, amount: real, category: ExpenseCategory, date: string, time: string,
                                 description: string, km: Option<real>, payment: Option<Payment>, liters: Option<real>)
    requires amount > 0.0
    ensures var e := CalculateManualExpense(id, amount, category, date, time, description, km, payment, liters);
      DerivedCategory(e.(category := None)) == category
  {
  }

  /** The date range test: inactive when both bounds are empty, otherwise
      each non-empty bound is inclusive. */
  predicate InRange(d: string, startDate: string, endDate: string)
  {
    (startDate == "" && endDate == "")
    || ((startDate == "" || !Less(d, startDate)) && (endDate == "" || !Less(endDate, d)))
  }

  predicate MatchesFilter(f: HistoryFilter, e: Entry)
  {
    InRange(e.date, f.startDate, f.endDate)
    && (f.category.None? || DerivedCategory(e) == f.category.value)
    && (f.payment.None? || e.paymentMethod == f.payment)
  }

  function Matcher(f: HistoryFilter): Entry -> bool
  {
    (e: Entry) => MatchesFilter(f, e)
  }

  /** The launches the filter keeps, most recently added first (the launches
      are tagged with their position and sorted by it, descending). */
  function FilteredEntries(entries: seq<Entry>, f: HistoryFilter): (r: seq<Entry>)
    ensures forall e :: e in r <==> e in entries && MatchesFilter(f, e)
    ensures |r| == Count(entries, Matcher(f))
    ensures Reverse(r) == Filter(entries, Matcher(f))
  {
    var kept := Filter(entries, Matcher(f));
    ReverseMembership(kept);
    ReverseTwice(kept);
    Reverse(kept)
  }

  lemma {:induction false} ReverseTwice<T>(s: seq<T>)
    ensures Reverse(Reverse(s)) == s
  {
    var r := Reverse(Reverse(s));
    assert |r| == |s|;
    forall i | 0 <= i < |s|
      ensures r[i] == s[i]
    {
      assert r[i] == Reverse(s)[|s| - 1 - i];
    }
  }

  /** With every filter empty the history is the whole list, reversed. */
  lemma {:induction false} NoFilterIsReverse(entries: seq<Entry>)
    ensures FilteredEntries(entries, NoFilter) == Reverse(entries)
  {
    AllMatch(entries, NoFilter);
  }

  lemma {:induction false} AllMatch(entries: seq<Entry>, f: HistoryFilter)
    requires f == NoFilter
    ensures Filter(entries, Matcher(f)) == entries
  {
    if entries != [] {
      AllMatch(entries[1..], f);
      assert entries == [entries[0]] + entries[1..];
    }
  }

  /** Both bounds are inclusive: a launch dated on a bound is kept. */
  lemma BoundsAreInclusive(d: string)
    ensures InRange(d, d, d)
    ensures InRange(d, d, "") && InRange(d, "", d)
  {
    LessIrreflexive(d);
  }

  /** An interval's test agrees with its bounds: a non-empty date range
      keeps exactly the dates between them. */
  lemma RangeBetween(d: string, lo: string, hi: string)
    requires lo != "" && hi != ""
    ensures InRange(d, lo, hi) <==> !Less(d, lo) && !Less(hi, d)
  {
  }

  /** The day tally of the filtered history. */
  datatype GoalSummary = GoalSummary(days: nat, met: nat, notMet: int)

  function GoalMetOf(s: DayStat): bool { s.goalMet }

  function GetGoalSummary(filtered: seq<Entry>, config: AppConfig): (g: GoalSummary)
    ensures g.met <= g.days
    ensures g.met + g.notMet == g.days
    ensures g.days == |Elems(Map(filtered, DateOf))|
    ensures g.met == Count(GetDailyStats(filtered, config), (s: DayStat) => s.gross >= config.dailyGoal)
  {
    var rows := GetDailyStats(filtered, config);
    DailyStatsRowCount(filtered, config);
    GoalTallyCountsGoodDays(rows, config.dailyGoal);
    var met := Count(rows, GoalMetOf);
    GoalSummary(|rows|, met, |rows| - met)
  }

  /** The days reaching the goal are those whose gross is at least the goal. */
  lemma {:induction false} GoalTallyCountsGoodDays(rows: seq<DayStat>, goal: real)
    requires forall i :: 0 <= i < |rows| ==> (rows[i].goalMet <==> rows[i].gross >= goal)
    ensures Count(rows, GoalMetOf) == Count(rows, (s: DayStat) => s.gross >= goal)
  {
    if rows != [] {
      GoalTallyCountsGoodDays(rows[1..], goal);
    }
  }

  /** The paid toggle is offered for launches not paid in cash that are not
      odometer closings. */
  predicate PaidToggleOffered(e: Entry)
  {
    e.paymentMethod != Some(Money) && e.storeName != ClosingLabel
  }

  /** `isPaid: !isPaid`: an absent flag reads as unpaid and becomes paid. */
  function TogglePaid(e: Entry): (r: Entry)
    ensures r.(isPaid := e.isPaid) == e
    ensures r.isPaid.Some?
    ensures r.isPaid.value <==> !(e.isPaid == Some(true))
  {
    e.(isPaid := Some(!(e.isPaid == Some(true))))
  }

  /** Toggling leaves the button on offer, so the flag can always be
      flipped back. */
  lemma ToggleKeepsOffer(e: Entry)
    ensures PaidToggleOffered(TogglePaid(e)) <==> PaidToggleOffered(e)
  {
  }

  /** An income taken in cash is paid when it is created and offers no
      toggle, so it stays paid. */
  lemma CashIncomeHasNoToggle(id: string, gross: real, date: string, time: string, store: string,
                              config: AppConfig, km: Option<real>, fuelPrice: Option<real>)
    ensures var e := CalculateDailyEntry(id, gross, date, time, store, config, km, fuelPrice, Some(Money));
      e.isPaid == Some(true) && !PaidToggleOffered(e)
  {
  }

  /** Toggling twice restores a launch whose flag was set. */
  lemma ToggleTwice(e: Entry)
    requires e.isPaid.Some?
    ensures TogglePaid(TogglePaid(e)) == e
  {
    var once := TogglePaid(e);
    if e.isPaid.value {
      assert once.isPaid == Some(false);
    } else {
      assert once.isPaid == Some(true);
    }
  }
}
