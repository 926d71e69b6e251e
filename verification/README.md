# Driver ledger — a Dafny model

The application is a personal ledger for a delivery driver. Every delivery
is booked as an income *launch* (`DailyEntry`). A fixed share of its gross
is set aside in three reserves: fuel, food and maintenance. The rest is the
net. Expenses are booked as launches with a zero gross that spend from one
reserve. An *odometer closing* is a launch with no money in it that records
the distance driven since the previous closing. Work sessions (`TimeEntry`)
are clocked in and out. The screens derive everything else from these
lists and the configuration (`AppConfig`):

- summaries by week, by day and by report range;
- reserve balances;
- fuel ratios;
- maintenance projections;
- worked hours;
- the progress towards the daily goal.

This project models that core as pure Dafny functions over immutable
datatypes and proves what it promises. The files follow the program:

| file | models |
|---|---|
| `types.dfy` | the records, the default configuration, `Option` and the parsed text `Field` |
| `calculations.dfy` | the income and expense factories, the summary, the weekly and daily groupings, the fuel ratios, clock arithmetic |
| `maintenance.dfy`, `quick_km.dfy` | the maintenance reserve, the odometer estimate, the alert projections and the closing form |
| `time_tracking.dfy` | clocking in and out, and the minutes worked per day |
| `history.dfy` | the history filter, the goal tally and the paid toggle |
| `reserves.dfy` | the reserve balances of the expenses screen |
| `reports.dfy` | the range report: payment-method totals, averages and stores |
| `dashboard.dfy` | today, week and month figures, and the goal progress |
| `edit_modal.dfy` | the edit form and its save |
| `quick_launch.dfy` | the store carousel, the store-name canonicalisation and the launch form |
| `settings.dfy` | the sliders, the maintenance-alert edits and the backup import |
| `app.dfy` | the state handlers, loading and importing |
| `seqs.dfy`, `strings.dfy`, `sorting.dfy`, `calendar.dfy`, `collections.dfy` | the JavaScript built-ins these rely on: `filter`/`reduce`, `Set`, stable `sort`, string comparison, `toLowerCase`, `trim`, calendar days |

Modelling conventions:

- Money, km and litres are `real`.
- A number field that may be missing is an `Option<real>`. `NaN` stored in such a field is modelled as `None`, because every use of those fields goes through JavaScript truthiness, where `NaN` and `undefined` behave alike.
- Text typed into a numeric input is a `Field`: `Blank`, `Number(v)` or `Garbage`. This keeps `parseFloat`'s failure path.
- Dates stay `YYYY-MM-DD` strings compared by code unit, as the source compares them. Week arithmetic converts a date to a day number (days since 1970-01-01) and keys a week by the day number of its Monday.
- Today's date, the current time, fresh ids and the user's answer to a confirmation dialog are parameters.

## Model

| member | source | states |
|---|---|---|
| Types.DefaultConfig | types.ts:64-76 | the defaults reserve 14% + 8% + 8% = 30% of each income, set a positive goal, a fuel price of 5.50, an odometer base of 0 and the three default alerts |
| Types.DefaultAlerts | types.ts:71-75 | three alerts with distinct ids, positive intervals and no service yet |
| Calculations.CalculateDailyEntry | utils/calculations.ts:30-62 | the income's three reserves are its gross times the configured shares; reserves plus net add back to the gross; it is paid exactly when the method is cash; an empty store name becomes "Geral" |
| Calculations.DefaultIncomeKeepsSeventyPercent | utils/calculations.ts:40-44 | under the default configuration an income keeps 70% of its gross as net |
| Calculations.CalculateManualExpense | utils/calculations.ts:67-93 | the expense puts the whole amount in the chosen bucket and nothing in the others; its net is minus the amount; litres are kept only for fuel; the label always starts with "[GASTO] " |
| Calculations.Excess | utils/calculations.ts:119-121 | overspending is never negative, covers spent minus reserved, and is zero exactly when spending stays within the reserve |
| Calculations.GetWeeklySummary | utils/calculations.ts:99-139 | the fees are the reserves plus every reserve's overspending; the net is the gross less the fees; an empty list sums to zero everywhere |
| Calculations.SummaryAppend | utils/calculations.ts:99-139 | appending a launch adds its gross and reserves when it is an income, its spending and litres when it is an expense, and its km in either case |
| Calculations.SummaryLitersIgnoreIncome | utils/calculations.ts:115-116 | an income adds its km to the summary but never litres |
| Calculations.SummaryAppendExpense | utils/calculations.ts:112-124 | booking an expense with non-negative buckets never raises the net and leaves the gross unchanged |
| Calculations.SummaryNoOverspend | utils/calculations.ts:118-124 | without overspending, the summary's net equals the sum of the incomes' own nets |
| Calculations.SummaryPermutation | utils/calculations.ts:99-139 | the summary depends only on which launches there are, not on their order |
| Calculations.SummaryOfPair | utils/calculations.ts:100-114 | for an income followed by an expense, the reserves are the income's and the spending is the expense's |
| Calculations.SummaryOverspendExample | utils/calculations.ts:118-135 | an income of 100 and a fuel expense of 20 overspend fuel by 6, giving fees of 36 and a net of 64 |
| Calculations.WeekKey | utils/calculations.ts:144-150 | a valid date's week key is a Monday at most six days before the date |
| Calculations.WeekGroupOf | utils/calculations.ts:152-170 | a week row spans its Monday to the following Sunday; it counts the launches keyed to that week and reports that week's summary figures |
| Calculations.GroupsFor | utils/calculations.ts:152-170 | one week row per key, in the keys' order |
| Calculations.WeekKeys | utils/calculations.ts:152-173 | the distinct week keys of the launches, latest week first |
| Calculations.WeekKeyIsMonday | utils/calculations.ts:145-150 | every key in use is a Monday with at least one launch |
| Calculations.GetWeeklyGroupedSummaries | utils/calculations.ts:141-174 | week rows are ordered latest first; each starts on a Monday and holds at least one launch; each counts exactly the launches of its week; every launch's week has a row |
| Calculations.GroupsAreNonEmptyWeeks | utils/calculations.ts:141-174 | no week row is empty and every row starts on a Monday |
| Calculations.EveryLaunchHasAWeek | utils/calculations.ts:143-151 | no launch is left out of the grouping |
| Calculations.LaunchWeek | utils/calculations.ts:143-151 | a launch's row is one whose span contains the launch's date |
| Calculations.WeeklyGroupingPartition | utils/calculations.ts:145-150 | a launch's date falls in a row's span if and only if that row is its week |
| Calculations.GroupsForCounts | utils/calculations.ts:152-170 | the rows' launch counts add up to the per-key counts |
| Calculations.GroupsForGross | utils/calculations.ts:152-170 | the rows' grosses add up to the per-key sums of the incomes' gross |
| Calculations.WeekKeysCover | utils/calculations.ts:143-153 | the keys are distinct and include the key of every launch |
| Calculations.WeeklyGroupingTotals | utils/calculations.ts:141-174 | the week rows together count every launch once and add up to the overall gross |
| Calculations.DayStatOf | utils/calculations.ts:184-191 | a day row reports its date's gross and net, and whether that gross reaches the goal |
| Calculations.StatsFor | utils/calculations.ts:184-191 | one day row per date, in the dates' order |
| Calculations.DailyDates | utils/calculations.ts:179-182 | the distinct dates of the launches, latest first |
| Calculations.GetDailyStats | utils/calculations.ts:176-194 | day rows are strictly latest first; there is a row for every launch's date and no other; each row's goal flag holds exactly when its gross reaches the goal |
| Calculations.DailyStatsRowCount | utils/calculations.ts:176-194 | there are exactly as many day rows as distinct dates |
| Calculations.GuardedRatio | utils/calculations.ts:213-216 | the ratio times a positive denominator gives back the numerator; any other denominator gives 0 |
| Calculations.CalculateFuelMetrics | utils/calculations.ts:203-219 | each fuel ratio times its denominator gives back its numerator when the denominator is positive and is 0 otherwise; only fuel-category expenses count |
| Calculations.FuelMetricsCountFuelOnly | utils/calculations.ts:206-209 | a non-fuel expense changes no fuel ratio, although the summary counts its litres |
| Calculations.ClockMinutes | utils/calculations.ts:249-252 | an "HH:mm" time is a minute of the day, 0 to 1439 |
| Calculations.Elapsed | utils/calculations.ts:252-253 | the elapsed minutes are the unique value in [0, 1440) congruent to end minus start |
| Calculations.CalculateDuration | utils/calculations.ts:248-256 | the duration is never negative; it is zero exactly when the break covers the elapsed time, and otherwise it plus the break is the elapsed time |
| Calculations.DurationAcrossMidnight | utils/calculations.ts:252-253 | a 22:00–02:00 shift with a 30-minute break is 210 minutes |
| Calculations.FormatDuration | utils/calculations.ts:261-265 | a non-negative count splits into whole hours and 0–59 minutes that add back up |
| Calculations.FormatNegativeDuration | utils/calculations.ts:261-265 | -30 minutes shows as -1h -30m, because floor division and the truncating remainder disagree |
| Maintenance.MaintenanceBalance | components/Maintenance.tsx:26-31 | the reserved maintenance is the summary's, and the balance is reserved less spent |
| Maintenance.MaintenanceBalanceMatchesSummary | components/Maintenance.tsx:26-31 | with no negative maintenance spending, the spent figure and the balance agree with the summary's |
| Maintenance.KmReading | components/Maintenance.tsx:34 | a non-zero distance wins over a non-zero absolute reading, and 0 when neither is present |
| Maintenance.LastKmEntry | components/Maintenance.tsx:33-36 | the estimate is non-negative, bounds every launch's reading, and is 0 or one of the readings |
| Maintenance.RecentKmEntries | components/Maintenance.tsx:42-49 | the first ten of the launches with a positive distance in a stable latest-date-first sort: as many as there are up to ten, each taken from those launches, and no launch left out is dated later than one kept; empty exactly when no launch has a distance |
| Maintenance.RecentKmFacts | components/Maintenance.tsx:42-49 | the chosen launches all have a distance, come from the list and are ordered latest first |
| Maintenance.RecentKmChoice | components/Maintenance.tsx:42-49 | the choice is the prefix of the sorted launches with a distance, of length min(10, their number), and nothing left out is later than what was kept |
| Maintenance.RecentKmSelection | components/Maintenance.tsx:42-49 | a prefix of a latest-first permutation is a sub-multiset, and every element outside it is dated no later than every element in it |
| Maintenance.SortedKmEntries | components/Maintenance.tsx:42-44 | the sorted launches with a distance are all from the list, and there are none exactly when no launch has a distance |
| Maintenance.AvgDailyKm | components/Maintenance.tsx:41-52 | 0 exactly when no launch has a distance; otherwise the mean of the recent distances, positive and between their least and greatest |
| Maintenance.MeanKm | components/Maintenance.tsx:50-51 | the mean of positive distances is positive and lies between their least and greatest |
| Maintenance.LastMaintenanceKm | components/Maintenance.tsx:105-108 | the greatest reading among the maintenance expenses whose label names the alert; the alert's own last service when none does |
| Maintenance.ServiceWithoutReadingCountsAsZero | components/Maintenance.tsx:105-108 | a matching service booked without a reading puts the last service at km 0, overriding the alert's own value |
| Maintenance.Ceil | components/Maintenance.tsx:116 | the ceiling is the least integer not below the value |
| Maintenance.Clamp | components/Maintenance.tsx:112 | the result lies within the bounds and is the value itself when that already lies within them |
| Maintenance.Progress | components/Maintenance.tsx:112 | the progress lies between 0 and 100; the used share of a positive interval is scaled to percent, 100 once the interval is used up, 0 before the service; a zero interval gives 100, 0 or NaN by the sign of the distance |
| Maintenance.ProjectAlert | components/Maintenance.tsx:110-116 | the next service is the last one plus the interval; urgency holds exactly when under 1000 km remain; the day estimate exists exactly when the average is positive and is the least number of average days covering the remaining distance |
| Maintenance.DaysToCover | components/Maintenance.tsx:116 | the least whole number of average days whose distance covers the remainder |
| Maintenance.AlertStatus | components/Maintenance.tsx:104-116 | an alert's projection starts from its last service and measures the remainder against the odometer estimate |
| Maintenance.OilChangeExample | components/Maintenance.tsx:110-114 | an oil change every 10000 km with the odometer at 4000 has 6000 km to go, is 40% used and is not urgent |
| QuickKm.ClosingDistance | components/QuickKM.tsx:31-32 | with a known previous total the distance plus that total is the new total; without one the distance is 0 |
| QuickKm.ClosingEntry | components/QuickKM.tsx:26-49 | there is a closing exactly when the total parses as positive; it carries no money, records the total and the distance, and falls back to the last fuel price when the price is blank |
| QuickKm.ClosingMovesOnlyKm | components/QuickKM.tsx:36-49 | a closing changes the summary's distance by the distance driven and no money figure |
| QuickKm.ClosingDistanceWinsOverReading | components/Maintenance.tsx:33-36 | after closings at 50000 and 50120 km, the second reads as 120 for the odometer estimate |
| QuickKm.FirstClosingReadsTheTotal | components/QuickKM.tsx:31-32 | the first closing records distance 0, so the estimate sees its absolute total |
| QuickKm.ClosingsTelescope | components/QuickKM.tsx:31-32 | the distances of consecutive closings add up to the overall distance |
| QuickKm.RegressionIsNegative | components/QuickKM.tsx:32 | an odometer reading below the last total yields a negative distance |
| Collections.ReplaceById | App.tsx:203 | the list keeps its length; exactly the items with the id become the replacement |
| Collections.RemoveById | App.tsx:212 | exactly the items without the id survive, in their original order and with their multiplicity |
| Collections.FilterWithout | App.tsx:212 | dropping the items with the id leaves a subsequence holding every other item as often as before and none with the id |
| Seqs.FilterSubsequence | App.tsx:212 | filtering only deletes: what it keeps stays in its order |
| Collections.ReplaceKeepsIds | App.tsx:203 | replacing keeps the sequence of ids |
| Collections.ReplaceIdempotent | App.tsx:203 | replacing twice is replacing once |
| Collections.RemoveCount | App.tsx:212 | removing drops exactly as many items as carry the id |
| Collections.RemoveUndoesAppend | App.tsx:212 | removing a just-appended item with a fresh id restores the list |
| Collections.ReplaceUnknownId | App.tsx:203 | an id no item carries leaves the list unchanged |
| Collections.RemoveUnknownId | App.tsx:212 | removing an id no item carries leaves the list unchanged |
| TimeTracking.ActiveEntry | components/TimeTracking.tsx:29-32 | the active session exists exactly when some session of today is open, and it is one of them |
| TimeTracking.ActiveEntryIsFirst | components/TimeTracking.tsx:30 | the active session is the first open session of today in the list |
| TimeTracking.ClockIn | components/TimeTracking.tsx:37-45 | clocking in appends an open session of today started now and keeps the others |
| TimeTracking.ClockInActivates | components/TimeTracking.tsx:116 | after clocking in where the button is offered, the new session is the active one |
| TimeTracking.Closed | components/TimeTracking.tsx:49-54 | closing sets the end time, the break (0 when it does not parse) and the notes, and keeps the id, date and start |
| TimeTracking.ClockOut | components/TimeTracking.tsx:47-58 | without an active session nothing changes; otherwise exactly the sessions with its id become its closed version |
| TimeTracking.ClockInKeepsOneOpen | components/TimeTracking.tsx:116 | clocking in only where it is offered keeps at most one open session per day |
| TimeTracking.ClockOutClosesToday | components/TimeTracking.tsx:47-58 | clocking out keeps at most one open session per day and leaves none open today |
| TimeTracking.RemoveKeepsOneOpen | App.tsx:228-233 | deleting sessions keeps at most one open session per day |
| TimeTracking.SessionMinutes | components/TimeTracking.tsx:63-64 | a closed session with valid `HH:mm` times counts what `calculateDuration` gives for its times and break; a session without an end counts nothing; never negative |
| TimeTracking.DailyTotals | components/TimeTracking.tsx:60-69 | a day has a total exactly when a closed session is dated on it, and every total is non-negative |
| TimeTracking.DailyTotalsPerDay | components/TimeTracking.tsx:60-69 | a day's total is the sum of the minutes of its closed sessions |
| TimeTracking.TodayTotal | components/TimeTracking.tsx:111 | today's total is the non-negative sum of today's closed sessions, 0 when there are none |
| TimeTracking.SortedDates | components/TimeTracking.tsx:71 | the days with a total, each once, strictly latest first |
| TimeTracking.DaySessions | components/TimeTracking.tsx:201-203 | a day's sessions, all of them and nothing else, latest start first |
| TimeTracking.DaySessionsStable | components/TimeTracking.tsx:201-203 | sessions with the same start keep their order in the list |
| History.DerivedCategory | components/History.tsx:52 | a stored category wins; otherwise an income is income and an expense is fuel, food or maintenance by its first positive bucket |
| History.DerivedCategoryOfExpense | components/History.tsx:52 | a factory expense without a stored category is filed under the category it was booked in |
| History.FilteredEntries | components/History.tsx:45-60 | the filter keeps exactly the matching launches, latest added first |
| History.ReverseTwice | components/History.tsx:58 | reversing the list twice gives it back |
| History.NoFilterIsReverse | components/History.tsx:45-60 | with no filter set, the history is the whole list, latest first |
| History.AllMatch | components/History.tsx:47-57 | with no filter set, every launch matches |
| History.BoundsAreInclusive | components/History.tsx:47-50 | a date equal to a bound is inside the range |
| History.RangeBetween | components/History.tsx:47-50 | with both bounds set, a date is in range exactly when it lies between them, both included |
| History.GetGoalSummary | components/History.tsx:65-70 | the day count is the number of distinct dates; the met days are those whose gross reaches the goal; met plus not met is every day |
| History.GoalTallyCountsGoodDays | components/History.tsx:67 | counting the goal flags is counting the days whose gross reaches the goal |
| History.TogglePaid | components/History.tsx:304 | the toggle flips the paid flag (absent reads as unpaid) and changes nothing else |
| History.ToggleKeepsOffer | components/History.tsx:301-304 | toggling keeps the button on offer, so the flag can be flipped back |
| History.CashIncomeHasNoToggle | components/History.tsx:301 | an income taken in cash starts paid and offers no toggle |
| History.ToggleTwice | components/History.tsx:304 | toggling a set flag twice restores the launch |
| Reserves.GetReserveBalances | components/Expenses.tsx:27-48 | reserves and spending per category are the summary's; each balance is reserved less spent; the total is the sum of the three balances |
| Reserves.BalanceAgainstSummary | components/Expenses.tsx:43-48 | the reserve balance plus the summary's net is the gross less all spending and overspending, so no money is lost |
| Reserves.MaintenanceScreensAgree | components/Expenses.tsx:46 | the maintenance balance here equals the one on the maintenance screen |
| Reserves.UsagePercent | components/Expenses.tsx:147 | the usage is at most 100, 0 without a reserve, and 100 exactly when spending reaches the reserve; below that it scales spending to percent |
| Reserves.TotalReservedPerc | components/Expenses.tsx:50 | the percentage shown is the sum of the three shares, times 100 |
| Reserves.DefaultReservesThirtyPercent | components/Expenses.tsx:50 | the defaults reserve 30% |
| Reserves.WeeklyCostIsWeekSpending | components/Expenses.tsx:213 | a week row's cost is the spending of the launches dated in that week |
| Reports.PaidWithAppend | components/Reports.tsx:56-60 | some launch uses a method after appending exactly when one did before or the new launch does |
| Reports.AddPaymentAt | components/Reports.tsx:56-60 | one accumulation step adds the launch's value to its own method only, starting that method at 0 |
| Reports.TotalsByMethod | components/Reports.tsx:56-67 | a method has a total exactly when some launch uses it, a missing method counting as PIX |
| Reports.TotalsByMethodPerKey | components/Reports.tsx:56-67 | each method's total is the sum over the launches paid that way |
| Reports.TotalsStep | components/Reports.tsx:56-60 | one more launch keeps every method's total equal to the sum over its launches |
| Reports.MethodValuePerKey | components/Reports.tsx:56-67 | a method's total, shown as 0 when absent, is the sum over its launches |
| Reports.MethodTotalIsSum | components/Reports.tsx:56-67 | the per-method totals add up to the total over all launches: nothing is lost or counted twice |
| Reports.PaymentsPartition | components/Reports.tsx:57 | the four methods partition the launches |
| Reports.MethodListed | components/Reports.tsx:57 | every method is among the four listed |
| Reports.PaymentsDistinct | components/Reports.tsx:57 | the four listed methods are distinct |
| Reports.MethodTotalPerKey | components/Reports.tsx:56-67 | the sum of the map's values is the sum of the per-method sums |
| Reports.PerKeyOfFour | components/Reports.tsx:56-67 | the per-method sums are the four methods' sums added up |
| Reports.ReportAverages | components/Reports.tsx:90-97 | each per-launch average times the launch count gives back its total, and 0 without launches; the gross per hour times the hours gives back the gross, and 0 without time |
| Reports.PerHourScales | components/Reports.tsx:96-97 | dividing by hours is dividing by minutes and scaling by 60 |
| Reports.UniqueStores | components/Reports.tsx:50 | the names of all income stores, over the whole list, each once, in ascending order |
| Reports.StoreDeliveries | components/Reports.tsx:52-54 | "all" selects nothing; any other name selects exactly the range's incomes of that store |
| Reports.MaintenanceEntries | components/Reports.tsx:48 | exactly the range's expenses with maintenance spending |
| Reports.TotalMinutes | components/Reports.tsx:78-83 | the worked minutes of the range are never negative, at least the minutes of each closed session, and 0 exactly when no closed session counts a minute |
| Seqs.IntSumFilterBounds | components/Reports.tsx:78-83 | a filtered sum of non-negative terms is non-negative and at least each term |
| Seqs.IntSumFilterZero | components/Reports.tsx:78-83 | such a sum is 0 exactly when each term is |
| Reports.TotalMinutesAppend | components/Reports.tsx:78-83 | a further session adds its minutes when it is closed and nothing otherwise |
| Reports.GetReport | components/Reports.tsx:41-120 | the report keeps the launches and sessions of the range; its figures are those of the range's summary; the category totals equal the summary's spending; the store list covers all incomes; the per-method totals add up the range's incomes by gross and its expenses by amount |
| Reports.ReportRangeInclusive | components/Reports.tsx:42 | a launch is in the report exactly when its date lies in the range, both ends included |
| Reports.PaymentTotalsSumToGross | components/Reports.tsx:56-60 | the income totals per method add up to the range's gross |
| Reports.ExpenseMethodTotalsSumToTotal | components/Reports.tsx:62-67 | the expense totals per method add up to the total spending |
| Reports.MissingMethodCountsAsPix | components/Reports.tsx:57 | an income without a method is counted as PIX |
| Dashboard.MonthPrefix | components/Dashboard.tsx:33 | the month is the first seven characters of today's date, a prefix of it |
| Dashboard.PeriodOf | components/Dashboard.tsx:50-52 | a period's count is the number of its incomes and never exceeds its launches |
| Dashboard.GoalPercent | components/Dashboard.tsx:57 | the progress is capped at 100 and reaches it exactly when the gross reaches a positive goal; below that it scales the gross to percent; a zero goal gives Infinity or NaN by the gross |
| Calculations.PercentScale | components/Dashboard.tsx:57 | the percentage times the goal is the gross times 100, and it is at least 100 exactly when the gross reaches a positive goal |
| Dashboard.RemainingToGoal | components/Dashboard.tsx:135 | the shortfall is never negative, zero exactly when the goal is reached, and otherwise closes the gap exactly |
| Dashboard.GetDashboard | components/Dashboard.tsx:43-58 | today, the week and the month are summarised over their own launches; the fuel card covers every launch; the progress and the remainder are those of today's gross against the goal; the goal counts as reached exactly when nothing remains, and then the progress is 100 |
| Dashboard.WeekMatchesGrouping | components/Dashboard.tsx:35-48 | a launch up to today is in the dashboard's week exactly when the weekly grouping puts it in today's week |
| Dashboard.TodayWithinWeekAndMonth | components/Dashboard.tsx:43-48 | today's launches are counted in the week and in the month too |
| Dashboard.MonthByPrefix | components/Dashboard.tsx:44 | the month keeps exactly the launches whose date starts with today's year and month |
| Dashboard.TodayCountAppend | components/Dashboard.tsx:50 | an income dated today raises today's count by one and today's gross by its amount |
| EditModal.FieldOf | components/EditModal.tsx:24-27 | a field filled from a number reads back as that number, and a blank field as absent |
| EditModal.InitialCategory | components/EditModal.tsx:30-32 | an expense is edited under its first positive bucket among fuel and food, else maintenance |
| EditModal.InitialForm | components/EditModal.tsx:14-32 | an income opens with its gross and store; an expense opens with the sum of its buckets and its label without "[GASTO] "; the optional fields read back as stored |
| EditModal.SaveEdit | components/EditModal.tsx:34-60 | saving happens exactly when the amount parses as positive; it rebuilds the launch through the factory of its original kind, keeping its id, and marks it paid whenever the method is cash |
| EditModal.ClosingCannotBeResaved | components/EditModal.tsx:16-37 | an odometer closing opens with amount 0 and cannot be saved unchanged |
| EditModal.ExpenseResaveIsIdentity | components/EditModal.tsx:34-57 | opening and saving a factory expense gives it back unchanged |
| EditModal.IncomeResaveIsIdentity | components/EditModal.tsx:45-50 | opening and saving a factory income under the same configuration gives it back unchanged |
| EditModal.IncomeResaveUsesCurrentConfig | components/EditModal.tsx:47 | a resaved income's reserves follow the configuration at save time |
| QuickLaunch.IncomeStoreNamesMembership | components/QuickLaunch.tsx:37 | the names listed are exactly the income stores |
| QuickLaunch.LatestFirstOrder | components/QuickLaunch.tsx:37 | deduplicating the reversed names orders stores by their latest use |
| QuickLaunch.AllStores | components/QuickLaunch.tsx:37 | each income store once, most recently used first |
| QuickLaunch.LatestStoreFirst | components/QuickLaunch.tsx:37 | after an income, its store heads the carousel |
| QuickLaunch.FilteredStores | components/QuickLaunch.tsx:40-42 | a blank query shows every store; otherwise exactly the stores containing the query, ignoring case; the carousel's order is kept |
| QuickLaunch.FindIgnoringCase | components/QuickLaunch.tsx:54 | a match is a known store equal to the name ignoring case, and there is none exactly when no store is |
| QuickLaunch.CanonicalName | components/QuickLaunch.tsx:53-57 | the saved name equals the trimmed name ignoring case; it is a known store when one matches, else the trimmed name |
| QuickLaunch.CanonicalIdempotent | components/QuickLaunch.tsx:53-57 | canonicalising a canonical name changes nothing |
| QuickLaunch.FindDependsOnLower | components/QuickLaunch.tsx:54 | names equal ignoring case find the same store |
| QuickLaunch.HandleSubmit | components/QuickLaunch.tsx:46-60 | a launch is made exactly when the amount parses as positive; it is an income of that amount, without distance or price, under the chosen method and the canonical store name |
| QuickLaunch.KnownStoreKeepsStores | components/QuickLaunch.tsx:53-57 | an income at a known store adds no store to the carousel |
| QuickLaunch.KnownStoreAddsNoStore | components/QuickLaunch.tsx:53-59 | typing a known store in another case or with spaces books it under the known name |
| Settings.SetSlider | components/Settings.tsx:18-25 | the goal is stored as typed, a reserve as a fraction; only that field changes and the slider then shows the value |
| Settings.SliderRoundTrip | components/Settings.tsx:18-25 | setting a slider to the position it shows changes nothing |
| Settings.ReserveSliderBounds | components/Settings.tsx:258 | through the sliders each reserve stays between 0 and 0.40 |
| Settings.SlidersAllowNegativeNet | components/Settings.tsx:258 | the sliders allow 120% in reserves, which makes every income's net negative |
| Settings.ApplyEdit | components/Settings.tsx:88-94 | an edit changes only the description or the interval, an unparsable interval being 0 |
| Settings.ChangeAlert | components/Settings.tsx:88-99 | exactly the alerts with the id are edited in place; the rest of the configuration is kept |
| Settings.ChangeKeepsIds | components/Settings.tsx:89-97 | editing keeps the alerts' ids in order |
| Settings.AddAlert | components/Settings.tsx:101-109 | one alert is appended with the fixed defaults and the others are kept |
| Settings.RemoveAlert | components/Settings.tsx:111-113 | exactly the alerts without the id remain, in their order and with their multiplicity |
| Settings.RemoveAlertCount | components/Settings.tsx:112 | removal drops exactly the alerts with the id |
| Settings.RemoveUndoesAdd | components/Settings.tsx:101-113 | removing an alert just added under a fresh id restores the list |
| Settings.ClassifyImport | components/Settings.tsx:61-82 | an object with an `entries` array is a full restore; a bare array restores entries only; unparsable text and `null` report a read error; anything else is invalid |
| Settings.BackupRoundTrip | components/Settings.tsx:38-47 | a full backup reads back as a full restore of what it saved |
| Settings.OldBackupRoundTrip | components/Settings.tsx:72-76 | an older bare-array backup restores just its entries |
| App.CelebrationForAnotherDay | App.tsx:180-182 | as written, a launch dated another day can set off today's celebration while today's gross stays below the goal |
| App.GoalCelebrationCrossesGoal | App.tsx:171-182 | the intended celebration fires exactly when the launch takes today's gross from below the goal to at least the goal |
| App.RememberFromEntry | App.tsx:194-199 | a launch with a price remembers it; a closing with a reading remembers that reading; nothing else changes |
| App.AddEntry | App.tsx:171-200 | the launch is appended; the celebration fires, as the handler writes it, exactly when today's gross before the launch is below the goal and that gross plus the launch's gross reaches it, which for a launch dated today is today's gross crossing the goal; the configuration remembers the price and the reading |
| App.CelebrationsAgreeToday | App.tsx:180-182 | for a launch dated today the handler's celebration and the intended one agree |
| App.ClosingSetsNextBase | App.tsx:197-199 | a closing's reading becomes the base of the next closing |
| App.UpdateEntry | App.tsx:202-206 | exactly the launches with the edited id become the edited launch |
| App.UpdateKeepsIds | App.tsx:203 | updating keeps the sequence of ids |
| App.DeleteEntry | App.tsx:208-215 | nothing changes for an empty id or a declined dialog; otherwise exactly the launches with the id are dropped and the others keep their order and multiplicity |
| App.DeleteUndoesAdd | App.tsx:208-215 | deleting a just-added launch with a fresh id restores the list |
| App.AddTimeEntry | App.tsx:218-221 | the session is appended after the others |
| App.UpdateTimeEntry | App.tsx:223-226 | exactly the sessions with the id become the new version |
| App.DeleteTimeEntry | App.tsx:228-233 | nothing changes when declined; otherwise exactly the sessions with the id are dropped and the others keep their order and multiplicity |
| App.UpdateTimeEntryKeepsOthers | App.tsx:224 | a session with another id is untouched |
| App.SanitizeIds | App.tsx:94-97 | only empty ids are replaced by fresh ones; every other field is kept; with non-empty fresh ids every launch ends up with an id |
| App.SanitizeIdempotent | App.tsx:94-97 | a second repair changes nothing |
| App.LoadConfig | App.tsx:101-107 | a stored configuration replaces the current one and always ends up with an alert list, the defaults filling a missing one |
| App.Load | App.tsx:87-107 | loading keeps every stored launch except for repaired ids and takes the sessions as stored |
| App.ImportData | App.tsx:235-251 | importing keeps every launch except for repaired ids; the sessions and the configuration are replaced only when the backup carries them |
| Seqs.Dedupe | components/QuickLaunch.tsx:37 | a `Set` keeps each element once, in order of first occurrence |
| Sorting.SortDescBy | components/Maintenance.tsx:44 | the sort returns the same launches, latest key first |
| Sorting.SortDescByStable | components/Maintenance.tsx:44 | the sort is stable: launches with equal keys keep their order |
| Sorting.SortUnique | components/Reports.tsx:50 | distinct names in ascending order, exactly those of the input |
| Strings.Trim | components/QuickLaunch.tsx:53 | the result is the slice of the text after its leading white space, neither starting nor ending with white space, and everything cut off before or after it is white space |
| Strings.TrimStart | components/QuickLaunch.tsx:53 | a suffix of the text that does not start with white space, everything before it being white space |
| Strings.TrimEnd | components/QuickLaunch.tsx:53 | a prefix of the text that does not end with white space, everything after it being white space |
| Strings.TrimEnds | components/QuickLaunch.tsx:53 | the trimmed text neither starts nor ends with white space |
| Strings.TrimSlice | components/QuickLaunch.tsx:53 | the trimmed text is the slice of the original right after its leading white space |
| Strings.TrimSuffixSpace | components/QuickLaunch.tsx:53 | only white space follows the trimmed text in the original |
| Strings.TrimIdempotent | components/QuickLaunch.tsx:53 | trimming twice is trimming once |
| Strings.ReplaceFirstAt | components/EditModal.tsx:20 | wherever the first occurrence of the pattern is, it alone is replaced and what precedes and follows it is kept |
| Strings.ReplaceFirst | components/EditModal.tsx:20 | a leading occurrence of the pattern is replaced, and a string without it is unchanged |
| Strings.Lower | components/QuickLaunch.tsx:42 | lower-casing keeps the length and folds each character on its own |
| Strings.LessTotal | components/Reports.tsx:50 | any two different strings are ordered one way or the other |
| Calendar.WeekStart | utils/calculations.ts:146-148 | the Monday on or before a day is at most six days before it |
| Calendar.WeekStartUnique | utils/calculations.ts:146-148 | that Monday is the only Monday within the six days before the day |
| Calendar.SundayBelongsToPreviousMonday | utils/calculations.ts:147 | a Sunday belongs to the week starting the Monday six days before it |
| Calendar.SameWeek | utils/calculations.ts:145-150 | two days share a week key exactly when the second lies in the seven days starting at the first's Monday |
| Calendar.EpochIsThursday | utils/calculations.ts:146 | 1970-01-01 is day 0 and a Thursday, fixing the weekday numbering |
| Sorting.SortUniqueDesc | utils/calculations.ts:173 | the distinct week keys, strictly latest first, exactly those of the input |

## Left out

- Persistence: IndexedDB storage, migration from `localStorage` and `refreshData`. Loading is modelled from the values storage returns.
- The AI report assistant, which calls an external service.
- The quick-expense form, which is a thin caller of the expense factory.
- Rendering, animations, confetti, toasts and the dark mode. Confirmation dialogs are a boolean parameter.
- CSV export (`entriesToCSV`), `toFixed` and `Intl` currency formatting, which are presentation only.
- Time and randomness. `generateId`, `getLocalDateStr`, `new Date()` and `toTimeString` become parameters.
- Time zones. The model keys weeks by the calendar Monday of the date. The original goes through local-time `Date` objects and `toISOString`, and in zones east of UTC it would key the week by the Sunday before.
- Floating point. Amounts are exact reals, so rounding and `NaN`/`Infinity` arithmetic are not modelled, except where `Option` stands for a non-finite result (`Dashboard.GoalPercent`, `Maintenance.Progress`).
- `localeCompare`, modelled as code-unit order. `toLowerCase` folds ASCII letters only.
- `JSON.parse` is modelled by its outcome (a `Json` value or a parse error). The contents of the restored records are not validated, nor are they by the original.
- The `others` field of a launch, which no computation sets or reads beyond a zero.
- Calculations.GetWeeklyGroupedSummaries: requires every date to be a valid `YYYY-MM-DD`. For an invalid date the original's `toISOString` throws, so the screen fails.
- TimeTracking.SessionMinutes: counts 0 for a closed session whose start or end is not a two-digit `HH:mm` within one day. The original splits each time at `:` and converts the parts with `Number`, so text such as "9:05" or "25:00" still gives a number of minutes, and only a missing or non-numeric part gives `NaN`. The app fills both times from `toTimeString().slice(0, 5)`, which is always a valid `HH:mm`; other text can only arrive through imported data.
- Reports.TotalMinutes: adds the same 0 for such a session where the original adds its minutes or turns the total into `NaN`; it is exact for sessions whose times the app itself recorded.
- Maintenance.MeanKm: states the mean's bounds, not its floating-point value.

## Findings

| source | as written | input that shows it | evidently intended | confidence | as-written member | corrected member |
|---|---|---|---|---|---|---|
| App.tsx:180-182 | `addEntry` adds the new launch's gross to today's gross whatever the launch's date | today 2024-01-02, goal 250, no launches yet; add a launch dated 2024-01-01 with gross 300 — the goal celebration fires although today's gross stays 0 | count the launch only when it is dated today, so the celebration marks today's gross crossing the goal | not executed | App.CelebrationForAnotherDay | App.GoalCelebrationCrossesGoal |

`App.AddEntry` computes the celebration the way the handler writes it. The corrected rule is `App.GoalCelebration`; `App.GoalCelebrationCrossesGoal` proves that it fires exactly when today's gross crosses the goal, and `App.CelebrationsAgreeToday` shows that the two rules agree for every launch dated today.
