/** The dashboard: the launches of today, of the current Monday-start week
    and of the current month with their summaries and income counts, and the
    progress towards the daily goal. Today's date is a parameter. */
module Dashboard {
  import opened Types
  import opened Seqs
  import opened Strings
  import opened Calendar
  import opened Calculations

  /** `today.substring(0, 7)`: the "YYYY-MM" of today's date. */
  function MonthPrefix(today: string): (p: string)
    ensures |today| >= 7 ==> |p| == 7 && StartsWith(today, p)
    ensures |today| < 7 ==> p == today
  {
    if |today| >= 7 then today[..7] else today
  }

  function OnDay(today: string): Entry -> bool
  {
    (e: Entry) => e.date == today
  }

  function InMonth(today: string): Entry -> bool
  {
    (e: Entry) => StartsWith(e.date, MonthPrefix(today))
  }

  /** An entry belongs to the current week when its date (read at noon) is
      not before the Monday starting today's week; a date that does not
      parse compares false. Later dates are not cut off. */
  function InWeek(today: string): Entry -> bool
    requires ValidDate(today)
  {
    (e: Entry) => ValidDate(e.date) && DayNumber(e.date) >= WeekStart(DayNumber(today))
  }

  /** The summary of one period together with its number of incomes. */
  datatype PeriodSum = PeriodSum(summary: WeeklySummary, count: nat)

  function PeriodOf(part: seq<Entry>): (p: PeriodSum)
    ensures p.summary == GetWeeklySummary(part)
    ensures p.count == |Incomes(part)|
    ensures p.count <= |part|
  {
    PeriodSum(GetWeeklySummary(part), Count(part, IsIncome))
  }

  /** `Math.min(100, gross / goal * 100)`. A zero goal divides by zero:
      a positive gross gives Infinity, capped at 100; a zero gross gives
      NaN and a negative one -Infinity, both shown as `None`. */
  function GoalPercent(gross: real, goal: real): (r: Option<real>)
    ensures goal != 0.0 ==> r.Some?
    ensures goal > 0.0 ==> r.value <= 100.0
    ensures goal > 0.0 ==> (r.value == 100.0 <==> gross >= goal)
    ensures goal > 0.0 && gross < goal ==> r.value * goal == gross * 100.0
    ensures goal > 0.0 && gross >= 0.0 ==> r.value >= 0.0
    ensures goal == 0.0 ==> (r.Some? <==> gross > 0.0)
  {
    if goal == 0.0 then
      (if gross > 0.0 then Some(100.0) else None)
    else
      var p := gross / goal * 100.0;
      PercentScale(gross, goal, p);
      Some(if p < 100.0 then p else 100.0)
  }

  /** `Math.max(0, goal - gross)`: what is still missing for the goal. */
  function RemainingToGoal(gross: real, goal: real): (r: real)
    ensures r >= 0.0
    ensures r == 0.0 <==> gross >= goal
    ensures gross < goal ==> gross + r == goal
  {
    if goal - gross > 0.0 then goal - gross else 0.0
  }

  /** The figures the dashboard shows. */
  datatype DashboardFigures = DashboardFigures(
    today: PeriodSum,
    week: PeriodSum,
    month: PeriodSum,
    general: WeeklySummary,
    fuel: FuelMetrics,
    goalPercent: Option<real>,
    goalReached: bool,
    remaining: real)

  function GetDashboard(entries: seq<Entry>, config: AppConfig, today: string): (d: DashboardFigures)
    requires ValidDate(today)
    ensures d.today == PeriodOf(Filter(entries, OnDay(today)))
    ensures d.week == PeriodOf(Filter(entries, InWeek(today)))
    ensures d.month == PeriodOf(Filter(entries, InMonth(today)))
    ensures d.general == GetWeeklySummary(entries)
    ensures d.goalReached <==> d.today.summary.totalGross >= config.dailyGoal
    ensures d.goalReached <==> d.remaining == 0.0
    ensures config.dailyGoal > 0.0 ==> (d.goalReached <==> d.goalPercent == Some(100.0))
    ensures d.fuel == CalculateFuelMetrics(entries)
    ensures d.goalPercent == GoalPercent(d.today.summary.totalGross, config.dailyGoal)
    ensures d.remaining == RemainingToGoal(d.today.summary.totalGross, config.dailyGoal)
  {
    var todaySum := PeriodOf(Filter(entries, OnDay(today)));
    var gross := todaySum.summary.totalGross;
    DashboardFigures(todaySum,
                     PeriodOf(Filter(entries, InWeek(today))),
                     PeriodOf(Filter(entries, InMonth(today))),
                     GetWeeklySummary(entries),
                     CalculateFuelMetrics(entries),
                     GoalPercent(gross, config.dailyGoal),
                     gross >= config.dailyGoal,
                     RemainingToGoal(gross, config.dailyGoal))
  }

  /** The dashboard's week is the weekly grouping's week: a launch dated no
      later than today is in the current week iff its Monday key is the
      Monday of today's week. */
  lemma WeekMatchesGrouping(today: string, e: Entry)
    requires ValidDate(today) && ValidDate(e.date)
    requires DayNumber(e.date) <= DayNumber(today)
    ensures InWeek(today)(e) <==> WeekKey(e) == WeekStart(DayNumber(today))
  {
    var t := DayNumber(today);
    var n := DayNumber(e.date);
    if n >= WeekStart(t) {
      WeekStartUnique(n, WeekStart(t));
    }
  }

  /** Today's launches are counted in the week and in the month as well. */
  lemma TodayWithinWeekAndMonth(entries: seq<Entry>, today: string, e: Entry)
    requires ValidDate(today)
    requires e in Filter(entries, OnDay(today))
    ensures e in Filter(entries, InWeek(today))
    ensures e in Filter(entries, InMonth(today))
  {
    FilterMembership(entries, OnDay(today));
    FilterMembership(entries, InWeek(today));
    FilterMembership(entries, InMonth(today));
    assert |today| == 10;
  }

  /** The month partition keeps exactly the launches whose date starts with
      today's "YYYY-MM". */
  lemma MonthByPrefix(entries: seq<Entry>, today: string, e: Entry)
    requires ValidDate(today)
    ensures e in Filter(entries, InMonth(today)) <==> e in entries && StartsWith(e.date, today[..7])
  {
    FilterMembership(entries, InMonth(today));
    assert |today| == 10;
  }

  /** Adding an income dated today raises today's count by one and today's
      gross by its amount. */
  lemma TodayCountAppend(entries: seq<Entry>, today: string, e: Entry)
    requires IsIncome(e) && e.date == today
    ensures PeriodOf(Filter(entries + [e], OnDay(today))).count == PeriodOf(Filter(entries, OnDay(today))).count + 1
    ensures PeriodOf(Filter(entries + [e], OnDay(today))).summary.totalGross
         == PeriodOf(Filter(entries, OnDay(today))).summary.totalGross + e.grossAmount
  {
    var p := OnDay(today);
    FilterAppend(entries, [e], p);
    assert Filter([e], p) == [e];
    FilterAppend(Filter(entries, p), [e], IsIncome);
    SummaryAppend(Filter(entries, p), e);
  }
}
