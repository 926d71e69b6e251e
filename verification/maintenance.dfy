/** The maintenance screen: the maintenance reserve balance, the estimated
    current odometer reading, the average distance per launch, and for each
    alert the projection of the next service. */
module Maintenance {
  import opened Types
  import opened Seqs
  import opened Strings
  import opened Sorting
  import opened Calculations

  /** An expense that spent something on maintenance. */
  predicate MaintenancePositive(e: Entry) { e.maintenance > 0.0 }

  /** The maintenance expenses: `maintenance > 0 && grossAmount == 0`,
      filtered in two steps. */
  function MaintenanceSpends(entries: seq<Entry>): seq<Entry>
  {
    Filter(Expenses(entries), MaintenancePositive)
  }

  datatype MaintenanceReserve = MaintenanceReserve(reserved: real, spent: real, balance: real)

  /** Maintenance reserved by incomes, spent by maintenance expenses, and
      what is left. */
  function MaintenanceBalance(entries: seq<Entry>): (r: MaintenanceReserve)
    ensures r.reserved == GetWeeklySummary(entries).totalMaintenance
    ensures r.balance == r.reserved - r.spent
  {
    var reserved := Sum(Incomes(entries), MaintenanceOf);
    var spent := Sum(MaintenanceSpends(entries), MaintenanceOf);
    MaintenanceReserve(reserved, spent, reserved - spent)
  }

  /** When no expense carries a negative maintenance amount, the balance
      agrees with the summary: reserved minus spent on maintenance. */
  lemma MaintenanceBalanceMatchesSummary(entries: seq<Entry>)
    requires forall i :: 0 <= i < |entries| ==> IsExpense(entries[i]) ==> entries[i].maintenance >= 0.0
    ensures MaintenanceBalance(entries).spent == GetWeeklySummary(entries).totalSpentMaintenance
    ensures MaintenanceBalance(entries).balance
         == GetWeeklySummary(entries).totalMaintenance - GetWeeklySummary(entries).totalSpentMaintenance
  {
    var ex := Expenses(entries);
    forall i | 0 <= i < |ex|
      ensures !MaintenancePositive(ex[i]) ==> MaintenanceOf(ex[i]) == 0.0
    {
      assert ex[i] in entries;
    }
    SumDropZeros(ex, MaintenancePositive, MaintenanceOf);
  }

  /** The odometer figure a launch contributes: `kmDriven || kmAtMaintenance
      || 0`. A non-zero distance wins over an absolute reading. */
  function KmReading(e: Entry): (k: real)
    ensures Truthy(e.kmDriven) ==> k == e.kmDriven.value
    ensures !Truthy(e.kmDriven) && Truthy(e.kmAtMaintenance) ==> k == e.kmAtMaintenance.value
    ensures !Truthy(e.kmDriven) && !Truthy(e.kmAtMaintenance) ==> k == 0.0
  {
    if Truthy(e.kmDriven) then e.kmDriven.value
    else if Truthy(e.kmAtMaintenance) then e.kmAtMaintenance.value
    else 0.0
  }

  /** The estimated current odometer reading: the largest reading, starting
      from 0, folded from the left. */
  function LastKmEntry(entries: seq<Entry>): (m: real)
    ensures m >= 0.0
    ensures forall i :: 0 <= i < |entries| ==> KmReading(entries[i]) <= m
    ensures m == 0.0 || exists i :: 0 <= i < |entries| && KmReading(entries[i]) == m
    decreases |entries|
  {
    if entries == [] then 0.0
    else
      var init := entries[..|entries| - 1];
      var max := LastKmEntry(init);
      var km := KmReading(entries[|entries| - 1]);
      assert forall i :: 0 <= i < |init| ==> init[i] == entries[i];
      if km > max then km else max
  }

  /** A launch with a positive distance. */
  predicate HasPositiveKm(e: Entry)
  {
    e.kmDriven.Some? && e.kmDriven.value > 0.0
  }

  /** The launches that enter the average: those with a positive distance,
      latest date first (a stable sort), at most ten of them. */
  function RecentKmEntries(entries: seq<Entry>): (r: seq<Entry>)
    ensures |r| <= 10
    ensures |r| == 0 <==> forall i :: 0 <= i < |entries| ==> !HasPositiveKm(entries[i])
    ensures forall i :: 0 <= i < |r| ==> HasPositiveKm(r[i]) && r[i] in entries
    ensures forall i, j :: 0 <= i < j < |r| ==> !Less(r[i].date, r[j].date)
    ensures |r| == if Count(entries, HasPositiveKm) < 10 then Count(entries, HasPositiveKm) else 10
    ensures multiset(r) <= multiset(Filter(entries, HasPositiveKm))
    ensures forall i, e :: 0 <= i < |r| && e in multiset(Filter(entries, HasPositiveKm)) - multiset(r) ==>
      !Less(r[i].date, e.date)
    ensures r == SortDescBy(Filter(entries, HasPositiveKm), DateOf)[..|r|]
  {
    RecentKmFacts(entries);
    RecentKmChoice(entries);
    Take(SortDescBy(Filter(entries, HasPositiveKm), DateOf), 10)
  }

  /** What the first ten of the sorted launches with a distance are made
      of, gathered for `RecentKmEntries`. */
  lemma RecentKmFacts(entries: seq<Entry>)
    ensures var r := Take(SortDescBy(Filter(entries, HasPositiveKm), DateOf), 10);
      && (|r| == 0 <==> forall i :: 0 <= i < |entries| ==> !HasPositiveKm(entries[i]))
      && (forall i :: 0 <= i < |r| ==> HasPositiveKm(r[i]) && r[i] in entries)
      && (forall i, j :: 0 <= i < j < |r| ==> !Less(r[i].date, r[j].date))
  {
    var sorted := SortDescBy(Filter(entries, HasPositiveKm), DateOf);
    SortedKmEntries(entries, sorted);
    RecentKmOrder(sorted);
  }

  /** Which launches the first ten of the sorted launches with a distance
      are, gathered for `RecentKmEntries`. */
  lemma RecentKmChoice(entries: seq<Entry>)
    ensures var r := Take(SortDescBy(Filter(entries, HasPositiveKm), DateOf), 10);
      && |r| == (if Count(entries, HasPositiveKm) < 10 then Count(entries, HasPositiveKm) else 10)
      && multiset(r) <= multiset(Filter(entries, HasPositiveKm))
      && (forall i, e :: 0 <= i < |r| && e in multiset(Filter(entries, HasPositiveKm)) - multiset(r) ==>
            !Less(r[i].date, e.date))
      && r == SortDescBy(Filter(entries, HasPositiveKm), DateOf)[..|r|]
  {
    var withKm := Filter(entries, HasPositiveKm);
    RecentKmSelection(SortDescBy(withKm, DateOf), withKm);
  }

  lemma RecentKmOrder(sorted: seq<Entry>)
    requires SortedDescBy(sorted, DateOf)
    ensures forall i, j :: 0 <= i < j < |Take(sorted, 10)| ==> !Less(Take(sorted, 10)[i].date, Take(sorted, 10)[j].date)
  {
    var r := Take(sorted, 10);
    forall i, j | 0 <= i < j < |r|
      ensures !Less(r[i].date, r[j].date)
    {
      assert r[i] == sorted[i] && r[j] == sorted[j];
      assert !Less(DateOf(sorted[i]), DateOf(sorted[j]));
    }
  }

  /** The first ten of a date-descending arrangement take no launch that is
      dated later than one they leave out. */
  lemma RecentKmSelection(sorted: seq<Entry>, withKm: seq<Entry>)
    requires SortedDescBy(sorted, DateOf) && multiset(sorted) == multiset(withKm)
    ensures Take(sorted, 10) == sorted[..|Take(sorted, 10)|]
    ensures |Take(sorted, 10)| == if |withKm| < 10 then |withKm| else 10
    ensures multiset(Take(sorted, 10)) <= multiset(withKm)
    ensures forall i, e :: 0 <= i < |Take(sorted, 10)| && e in multiset(withKm) - multiset(Take(sorted, 10)) ==>
      !Less(Take(sorted, 10)[i].date, e.date)
  {
    var r := Take(sorted, 10);
    var n := |r|;
    assert |sorted| == |multiset(withKm)| == |withKm|;
    assert r == sorted[..n];
    PrefixMultiset(sorted, n);
    forall i, e | 0 <= i < n && e in multiset(withKm) - multiset(r)
      ensures !Less(r[i].date, e.date)
    {
      SortedPrefixFirst(sorted, n, i, e);
    }
  }

  /** A sequence holds what its first `n` elements and the rest hold. */
  lemma PrefixMultiset(s: seq<Entry>, n: nat)
    requires n <= |s|
    ensures multiset(s) == multiset(s[..n]) + multiset(s[n..])
  {
    assert s == s[..n] + s[n..];
  }

  /** In a latest-first arrangement, an element among the first `n` is dated
      no earlier than any element after them. */
  lemma SortedPrefixFirst(sorted: seq<Entry>, n: nat, i: nat, e: Entry)
    requires SortedDescBy(sorted, DateOf) && i < n <= |sorted|
    requires e in multiset(sorted[n..])
    ensures !Less(sorted[i].date, e.date)
  {
    var j :| 0 <= j < |sorted[n..]| && sorted[n..][j] == e;
    assert sorted[n + j] == e;
    assert !Less(DateOf(sorted[i]), DateOf(sorted[n + j]));
  }

  lemma {:induction false} SortedKmEntries(entries: seq<Entry>, sorted: seq<Entry>)
    requires sorted == SortDescBy(Filter(entries, HasPositiveKm), DateOf)
    ensures |sorted| == 0 <==> forall i :: 0 <= i < |entries| ==> !HasPositiveKm(entries[i])
    ensures forall i :: 0 <= i < |sorted| ==> HasPositiveKm(sorted[i]) && sorted[i] in entries
  {
    var withKm := Filter(entries, HasPositiveKm);
    assert |sorted| == |multiset(sorted)| == |multiset(withKm)| == |withKm|;
    forall i | 0 <= i < |sorted|
      ensures HasPositiveKm(sorted[i]) && sorted[i] in entries
    {
      assert sorted[i] in multiset(withKm);
    }
    if |sorted| > 0 {
      assert withKm[0] in entries;
      var i :| 0 <= i < |entries| && entries[i] == withKm[0];
      assert HasPositiveKm(entries[i]);
    }
  }

  /** The average distance of the recent launches with a distance; 0 when
      there are none. Closing launches count like any other. */
  function AvgDailyKm(entries: seq<Entry>): (avg: real)
    ensures RecentKmEntries(entries) == [] <==> avg == 0.0
    ensures RecentKmEntries(entries) != [] ==> avg > 0.0
    ensures RecentKmEntries(entries) != [] ==>
              avg == Sum(RecentKmEntries(entries), KmOf) / |RecentKmEntries(entries)| as real
    ensures RecentKmEntries(entries) != [] ==>
              MinOf(RecentKmEntries(entries), KmOf) <= avg <= MaxOf(RecentKmEntries(entries), KmOf)
  {
    var recent := RecentKmEntries(entries);
    if recent == [] then 0.0 else MeanKm(recent)
  }

  /** The mean distance of launches that all have a positive distance. */
  function MeanKm(s: seq<Entry>): (avg: real)
    requires |s| > 0
    requires forall i :: 0 <= i < |s| ==> HasPositiveKm(s[i])
    ensures avg > 0.0
    ensures MinOf(s, KmOf) <= avg <= MaxOf(s, KmOf)
  {
    MeanOfPositive(s);
    Sum(s, KmOf) / |s| as real
  }

  lemma {:induction false} MeanOfPositive(s: seq<Entry>)
    requires |s| > 0
    requires forall i :: 0 <= i < |s| ==> HasPositiveKm(s[i])
    ensures Sum(s, KmOf) / |s| as real > 0.0
    ensures MinOf(s, KmOf) <= Sum(s, KmOf) / |s| as real <= MaxOf(s, KmOf)
  {
    var lo := MinOf(s, KmOf);
    var i :| 0 <= i < |s| && KmOf(s[i]) == lo;
    assert HasPositiveKm(s[i]);
    MeanBetween(s, KmOf);
  }

  /** The label of a launch names the alert: case-insensitive containment. */
  function LabelMatches(description: string): Entry -> bool
  {
    (e: Entry) => Contains(Lower(e.storeName), Lower(description))
  }

  function AtMaintenanceOrZero(e: Entry): real { OrZero(e.kmAtMaintenance) }

  /** The odometer reading of the last service of an alert: the greatest
      `kmAtMaintenance || 0` over the maintenance expenses whose label names
      the alert, or the alert's own `lastKm` when none does. */
  function LastMaintenanceKm(entries: seq<Entry>, alert: MaintenanceAlert): (km: real)
    ensures Filter(MaintenanceSpends(entries), LabelMatches(alert.description)) == [] ==> km == alert.lastKm
    ensures var ms := Filter(MaintenanceSpends(entries), LabelMatches(alert.description));
      ms != [] ==>
        (forall i :: 0 <= i < |ms| ==> OrZero(ms[i].kmAtMaintenance) <= km)
        && exists i :: 0 <= i < |ms| && OrZero(ms[i].kmAtMaintenance) == km
  {
    var ms := Filter(MaintenanceSpends(entries), LabelMatches(alert.description));
    if |ms| > 0 then MaxOf(ms, AtMaintenanceOrZero) else alert.lastKm
  }

  /** A matching service booked without an odometer reading resets the
      last service to km 0, whatever the alert's own `lastKm` says. */
  lemma ServiceWithoutReadingCountsAsZero(alert: MaintenanceAlert, e: Entry)
    requires alert.description == "Pneus" && alert.lastKm == 5000.0
    requires e.storeName == "[GASTO] Pneus" && e.grossAmount == 0.0 && e.maintenance == 300.0
    requires e.kmAtMaintenance == None
    ensures LastMaintenanceKm([e], alert) == 0.0
  {
    assert Lower("Pneus") == "pneus";
    assert Lower(e.storeName) == "[gasto] pneus";
    assert Lower(e.storeName)[8..8 + 5] == "pneus";
    ContainsAt(Lower(e.storeName), "pneus", 8);
    assert Expenses([e]) == [e];
    assert MaintenanceSpends([e]) == [e];
    assert Filter([e], LabelMatches(alert.description)) == [e];
  }

  /** The smallest integer not below `x` (`Math.ceil`). */
  function Ceil(x: real): (c: int)
    ensures c as real - 1.0 < x <= c as real
  {
    -((-x).Floor)
  }

  /** The projection of one alert's next service. */
  datatype AlertProjection = AlertProjection(
    lastMaintenanceKm: real,
    nextMaintenanceKm: real,
    kmRemaining: real,
    progress: Option<real>,
    isUrgent: bool,
    estimatedDays: Option<int>)

  function Clamp(lo: real, hi: real, x: real): (r: real)
    requires lo <= hi
    ensures lo <= r <= hi
    ensures lo <= x <= hi ==> r == x
  {
    if x < lo then lo else if x > hi then hi else x
  }

  /** `Math.min(100, Math.max(0, used / interval * 100))`. An interval of 0
      (what an unparsable interval is saved as) divides by zero: a positive
      distance gives Infinity, capped at 100; a negative one -Infinity,
      raised to 0; none at all gives NaN, shown as `None`. */
  function Progress(used: real, interval: real): (r: Option<real>)
    ensures r == None <==> interval == 0.0 && used == 0.0
    ensures r.Some? ==> 0.0 <= r.value <= 100.0
    ensures interval > 0.0 && used >= interval ==> r == Some(100.0)
    ensures interval > 0.0 && used <= 0.0 ==> r == Some(0.0)
    ensures interval > 0.0 && 0.0 <= used <= interval ==> r.value * interval == used * 100.0
    ensures interval == 0.0 && used > 0.0 ==> r == Some(100.0)
    ensures interval == 0.0 && used < 0.0 ==> r == Some(0.0)
  {
    if interval == 0.0 then
      (if used > 0.0 then Some(100.0) else if used < 0.0 then Some(0.0) else None)
    else
      var p := used / interval * 100.0;
      RatioScale(used, interval, p);
      Some(Clamp(0.0, 100.0, p))
  }

  lemma RatioScale(used: real, interval: real, p: real)
    requires interval != 0.0 && p == used / interval * 100.0
    ensures p * interval == used * 100.0
    ensures interval > 0.0 ==> (p >= 100.0 <==> used >= interval) && (p <= 0.0 <==> used <= 0.0)
  {
    var q := used / interval;
    assert q * interval == used;
    assert p * interval == used * 100.0;
    if interval > 0.0 {
      assert p >= 100.0 <==> p * interval >= 100.0 * interval;
      assert p <= 0.0 <==> p * interval <= 0.0;
    }
  }

  /** Projects the next service of an alert from the last service, the
      current reading and the average distance per launch. */
  function ProjectAlert(alert: MaintenanceAlert, lastMaintenanceKm: real, currentKm: real, avgDailyKm: real): (p: AlertProjection)
    ensures p.lastMaintenanceKm == lastMaintenanceKm
    ensures p.nextMaintenanceKm == lastMaintenanceKm + alert.kmInterval
    ensures p.kmRemaining == p.nextMaintenanceKm - currentKm
    ensures p.progress == Progress(currentKm - lastMaintenanceKm, alert.kmInterval)
    ensures alert.kmInterval > 0.0 && p.kmRemaining <= 0.0 ==> p.progress == Some(100.0)
    ensures alert.kmInterval > 0.0 && currentKm <= lastMaintenanceKm ==> p.progress == Some(0.0)
    ensures p.isUrgent <==> p.kmRemaining < 1000.0
    ensures p.estimatedDays.Some? <==> avgDailyKm > 0.0
    ensures p.estimatedDays.Some? ==>
      (p.estimatedDays.value - 1) as real * avgDailyKm < p.kmRemaining <= p.estimatedDays.value as real * avgDailyKm
    ensures p.estimatedDays.Some? && p.kmRemaining <= 0.0 ==> p.estimatedDays.value <= 0
  {
    var next := lastMaintenanceKm + alert.kmInterval;
    var remaining := next - currentKm;
    var days := if avgDailyKm > 0.0 then Some(DaysToCover(remaining, avgDailyKm)) else None;
    AlertProjection(lastMaintenanceKm, next, remaining, Progress(currentKm - lastMaintenanceKm, alert.kmInterval),
                    remaining < 1000.0, days)
  }

  /** `Math.ceil(remaining / avg)`: the number of average days that cover
      the remaining distance. */
  function DaysToCover(remaining: real, avg: real): (d: int)
    requires avg > 0.0
    ensures (d - 1) as real * avg < remaining <= d as real * avg
    ensures remaining <= 0.0 ==> d <= 0
  {
    var q := remaining / avg;
    var c := Ceil(q);
    ScaleBounds(q, c, avg);
    c
  }

  lemma ScaleBounds(q: real, c: int, avg: real)
    requires avg > 0.0 && c as real - 1.0 < q <= c as real
    ensures (c - 1) as real * avg < q * avg <= c as real * avg
  {
  }

  /** The projection of an alert as the screen shows it, from the launches. */
  function AlertStatus(entries: seq<Entry>, alert: MaintenanceAlert): (p: AlertProjection)
    ensures p.lastMaintenanceKm == LastMaintenanceKm(entries, alert)
    ensures p.kmRemaining == LastMaintenanceKm(entries, alert) + alert.kmInterval - LastKmEntry(entries)
  {
    ProjectAlert(alert, LastMaintenanceKm(entries, alert), LastKmEntry(entries), AvgDailyKm(entries))
  }

  /** Oil change every 10000 km, never serviced, odometer at 4000: 6000 km
      to go, 40% used, not urgent. */
  lemma OilChangeExample()
    ensures var p := ProjectAlert(MaintenanceAlert("1", "Troca de \U{D3}leo", 10000.0, 0.0), 0.0, 4000.0, 0.0);
      p.kmRemaining == 6000.0 && p.progress == Some(40.0) && !p.isUrgent && p.estimatedDays == None
  {
  }
}
