/** The time clock: the open session of today, clocking in and out, the
    worked minutes per day and the order in which days and sessions are
    listed. "Today" and "now" are parameters. */
module TimeTracking {
  import opened Types
  import opened Seqs
  import opened Strings
  import opened Sorting
  import opened Calculations
  import opened Collections

  /** A session still running: it has no end time (`!e.endTime`, so an
      empty end time counts as none). */
  predicate IsOpen(t: TimeEntry)
  {
    t.endTime.None? || t.endTime.value == ""
  }

  /** A session that enters the totals: both times present
      (`e.startTime && e.endTime`). */
  predicate IsClosed(t: TimeEntry)
  {
    t.startTime != "" && t.endTime.Some? && t.endTime.value != ""
  }

  function SessionIdOf(t: TimeEntry): string { t.id }
  function SessionDateOf(t: TimeEntry): string { t.date }
  function StartOf(t: TimeEntry): string { t.startTime }

  /** The break of a session, `breakDuration || 0`. */
  function BreakOf(t: TimeEntry): int
  {
    if t.breakDuration.Some? then t.breakDuration.value else 0
  }

  /** The session `ActiveEntry` looks for: dated `today` and open. */
  predicate OpenOn(t: TimeEntry, today: string)
  {
    t.date == today && IsOpen(t)
  }

  /** The first open session dated today, if any (`Array.prototype.find`). */
  function ActiveEntry(sessions: seq<TimeEntry>, today: string): (r: Option<TimeEntry>)
    ensures r.None? <==> forall i :: 0 <= i < |sessions| ==> !OpenOn(sessions[i], today)
    ensures r.Some? ==> OpenOn(r.value, today) && r.value in sessions
  {
    if sessions == [] then None
    else if OpenOn(sessions[0], today) then Some(sessions[0])
    else ActiveEntry(sessions[1..], today)
  }

  /** The active session is the first match: every session before it is
      closed or of another day. */
  lemma {:induction false} ActiveEntryIsFirst(sessions: seq<TimeEntry>, today: string)
    requires ActiveEntry(sessions, today).Some?
    ensures exists i :: 0 <= i < |sessions| && sessions[i] == ActiveEntry(sessions, today).value
                        && forall j :: 0 <= j < i ==> !OpenOn(sessions[j], today)
  {
    if !OpenOn(sessions[0], today) {
      var rest := sessions[1..];
      ActiveEntryIsFirst(rest, today);
      var i :| 0 <= i < |rest| && rest[i] == ActiveEntry(rest, today).value
               && forall j :: 0 <= j < i ==> !OpenOn(rest[j], today);
      assert sessions[i + 1] == rest[i];
      forall j | 0 <= j < i + 1
        ensures !OpenOn(sessions[j], today)
      {
        if j > 0 {
          assert sessions[j] == rest[j - 1];
        }
      }
    } else {
      assert sessions[0] == ActiveEntry(sessions, today).value;
    }
  }

  /** The clock-in button appears only while no session of today is open. */
  predicate ClockInOffered(sessions: seq<TimeEntry>, today: string)
  {
    ActiveEntry(sessions, today).None?
  }

  /** Clocking in appends an open session started now, with empty notes. */
  function ClockIn(sessions: seq<TimeEntry>, id: string, today: string, now: string): (r: seq<TimeEntry>)
    ensures |r| == |sessions| + 1 && r[..|sessions|] == sessions
    ensures OpenOn(r[|sessions|], today) && r[|sessions|].startTime == now && r[|sessions|].id == id
  {
    sessions + [TimeEntry(id, today, now, None, None, Some(""))]
  }

  /** After clocking in where it is offered, the new session is the active
      one. */
  lemma {:induction false} ClockInActivates(sessions: seq<TimeEntry>, id: string, today: string, now: string)
    requires ClockInOffered(sessions, today)
    ensures ActiveEntry(ClockIn(sessions, id, today, now), today) == Some(ClockIn(sessions, id, today, now)[|sessions|])
    decreases |sessions|
  {
    var r := ClockIn(sessions, id, today, now);
    if sessions != [] {
      ClockInActivates(sessions[1..], id, today, now);
      assert r[1..] == ClockIn(sessions[1..], id, today, now);
    }
  }

  /** The active session closed now: end time set, break set to the parsed
      input (`parseInt(...) || 0`, `None` standing for NaN), notes set;
      id, date and start time kept. */
  function Closed(active: TimeEntry, now: string, parsedBreak: Option<int>, notes: string): (t: TimeEntry)
    ensures t.id == active.id && t.date == active.date && t.startTime == active.startTime
    ensures t.endTime == Some(now) && t.notes == Some(notes)
    ensures t.breakDuration == Some(if parsedBreak.Some? then parsedBreak.value else 0)
  {
    active.(endTime := Some(now),
            breakDuration := Some(if parsedBreak.Some? then parsedBreak.value else 0),
            notes := Some(notes))
  }

  /** Clocking out replaces the active session by its closed version; with
      no active session nothing changes. */
  function ClockOut(sessions: seq<TimeEntry>, today: string, now: string, parsedBreak: Option<int>,
                    notes: string): (r: seq<TimeEntry>)
    ensures ActiveEntry(sessions, today).None? ==> r == sessions
    ensures |r| == |sessions|
    ensures ActiveEntry(sessions, today).Some? ==>
              var a := ActiveEntry(sessions, today).value;
              forall i :: 0 <= i < |sessions| ==>
                r[i] == (if sessions[i].id == a.id then Closed(a, now, parsedBreak, notes) else sessions[i])
  {
    var active := ActiveEntry(sessions, today);
    if active.None? then sessions
    else ReplaceById(sessions, SessionIdOf, Closed(active.value, now, parsedBreak, notes))
  }

  /** At most one open session per day: the state the clock-in guard keeps. */
  predicate AtMostOneOpenPerDay(sessions: seq<TimeEntry>)
  {
    forall i, j ::
      (0 <= i < |sessions| && 0 <= j < |sessions| && i != j && sessions[i].date == sessions[j].date)
      ==> !(IsOpen(sessions[i]) && IsOpen(sessions[j]))
  }

  /** Clocking in while it is offered keeps one open session per day. */
  lemma ClockInKeepsOneOpen(sessions: seq<TimeEntry>, id: string, today: string, now: string)
    requires AtMostOneOpenPerDay(sessions) && ClockInOffered(sessions, today)
    ensures AtMostOneOpenPerDay(ClockIn(sessions, id, today, now))
  {
    var r := ClockIn(sessions, id, today, now);
    forall i, j | 0 <= i < |r| && 0 <= j < |r| && i != j && r[i].date == r[j].date
      ensures !(IsOpen(r[i]) && IsOpen(r[j]))
    {
      if i < |sessions| && j < |sessions| {
        assert r[i] == sessions[i] && r[j] == sessions[j];
      } else if i < |sessions| {
        assert r[i] == sessions[i] && !OpenOn(sessions[i], today);
      } else {
        assert r[j] == sessions[j] && !OpenOn(sessions[j], today);
      }
    }
  }

  /** Clocking out at a real time keeps one open session per day, and
      leaves no session of today open. */
  lemma ClockOutClosesToday(sessions: seq<TimeEntry>, today: string, now: string,
                            parsedBreak: Option<int>, notes: string)
    requires AtMostOneOpenPerDay(sessions) && now != ""
    ensures AtMostOneOpenPerDay(ClockOut(sessions, today, now, parsedBreak, notes))
    ensures ActiveEntry(ClockOut(sessions, today, now, parsedBreak, notes), today).None?
  {
    var r := ClockOut(sessions, today, now, parsedBreak, notes);
    var active := ActiveEntry(sessions, today);
    if active.Some? {
      var a := active.value;
      ActiveEntryIsFirst(sessions, today);
      var k :| 0 <= k < |sessions| && sessions[k] == a
               && forall j :: 0 <= j < k ==> !OpenOn(sessions[j], today);
      forall i | 0 <= i < |r|
        ensures !OpenOn(r[i], today)
      {
        if sessions[i].id != a.id {
          assert r[i] == sessions[i] && i != k;
        }
      }
      forall i, j | 0 <= i < |r| && 0 <= j < |r| && i != j && r[i].date == r[j].date
        ensures !(IsOpen(r[i]) && IsOpen(r[j]))
      {
        if sessions[i].id != a.id && sessions[j].id != a.id {
          assert r[i] == sessions[i] && r[j] == sessions[j];
        }
      }
    }
  }

  /** Deleting sessions keeps one open session per day. */
  lemma {:induction false} RemoveKeepsOneOpen(sessions: seq<TimeEntry>, k: string)
    requires AtMostOneOpenPerDay(sessions)
    ensures AtMostOneOpenPerDay(RemoveById(sessions, SessionIdOf, k))
  {
    if sessions != [] {
      var rest := sessions[1..];
      assert AtMostOneOpenPerDay(rest) by {
        forall i, j | 0 <= i < |rest| && 0 <= j < |rest| && i != j && rest[i].date == rest[j].date
          ensures !(IsOpen(rest[i]) && IsOpen(rest[j]))
        {
          assert rest[i] == sessions[i + 1] && rest[j] == sessions[j + 1];
        }
      }
      RemoveKeepsOneOpen(rest, k);
      var tail := RemoveById(rest, SessionIdOf, k);
      if sessions[0].id != k {
        forall y | y in tail && y.date == sessions[0].date && IsOpen(sessions[0])
          ensures !IsOpen(y)
        {
          var m :| 0 <= m < |rest| && rest[m] == y;
          assert sessions[m + 1] == y;
        }
        ConsKeepsOneOpen(sessions[0], tail);
        assert RemoveById(sessions, SessionIdOf, k) == [sessions[0]] + tail;
      } else {
        assert RemoveById(sessions, SessionIdOf, k) == tail;
      }
    }
  }

  lemma ConsKeepsOneOpen(x: TimeEntry, tail: seq<TimeEntry>)
    requires AtMostOneOpenPerDay(tail)
    requires forall y :: y in tail && y.date == x.date && IsOpen(x) ==> !IsOpen(y)
    ensures AtMostOneOpenPerDay([x] + tail)
  {
    var r := [x] + tail;
    forall i, j | 0 <= i < |r| && 0 <= j < |r| && i != j && r[i].date == r[j].date
      ensures !(IsOpen(r[i]) && IsOpen(r[j]))
    {
      if i == 0 {
        assert r[j] == tail[j - 1];
      } else if j == 0 {
        assert r[i] == tail[i - 1];
      } else {
        assert r[i] == tail[i - 1] && r[j] == tail[j - 1];
      }
    }
  }

  // ---------------------------------------------------------------------
  // Worked minutes per day

  /** The worked minutes of a closed session with valid times; 0 for any
      other session. */
  function SessionMinutes(t: TimeEntry): (n: int)
    ensures n >= 0
    ensures IsClosed(t) && ValidClock(t.startTime) && ValidClock(t.endTime.value) ==>
      n == CalculateDuration(t.startTime, t.endTime.value, BreakOf(t))
    ensures !IsClosed(t) ==> n == 0
  {
    if IsClosed(t) && ValidClock(t.startTime) && ValidClock(t.endTime.value)
    then CalculateDuration(t.startTime, t.endTime.value, BreakOf(t))
    else 0
  }

  /** "This session is closed and dated `d`." */
  function ClosedOn(d: string): TimeEntry -> bool
  {
    (t: TimeEntry) => IsClosed(t) && t.date == d
  }

  /** Some closed session is dated `d`. */
  predicate WorkedOn(sessions: seq<TimeEntry>, d: string)
  {
    exists i :: 0 <= i < |sessions| && ClosedOn(d)(sessions[i])
  }

  lemma WorkedOnAppend(init: seq<TimeEntry>, t: TimeEntry, d: string)
    ensures WorkedOn(init + [t], d) <==> WorkedOn(init, d) || ClosedOn(d)(t)
  {
    var s := init + [t];
    if WorkedOn(s, d) && !ClosedOn(d)(t) {
      var i :| 0 <= i < |s| && ClosedOn(d)(s[i]);
      assert s[i] == init[i];
    }
    if WorkedOn(init, d) {
      var i :| 0 <= i < |init| && ClosedOn(d)(init[i]);
      assert s[i] == init[i];
    }
    if ClosedOn(d)(t) {
      assert s[|init|] == t;
    }
  }

  /** One step of the accumulation: a closed session adds its minutes to
      its date's total, starting the date at 0. */
  function AddSession(m: map<string, int>, t: TimeEntry): map<string, int>
  {
    if IsClosed(t) then m[t.date := (if t.date in m then m[t.date] else 0) + SessionMinutes(t)] else m
  }

  lemma AddSessionAt(m: map<string, int>, t: TimeEntry, d: string)
    ensures d in AddSession(m, t) <==> d in m || ClosedOn(d)(t)
    ensures ClosedOn(d)(t) ==> AddSession(m, t)[d] == (if d in m then m[d] else 0) + SessionMinutes(t)
    ensures !ClosedOn(d)(t) && d in m ==> AddSession(m, t)[d] == m[d]
  {
  }

  /** The minutes worked per date, accumulated in list order over the
      closed sessions. */
  function DailyTotals(sessions: seq<TimeEntry>): (m: map<string, int>)
    ensures forall d :: d in m <==> WorkedOn(sessions, d)
    ensures forall d :: d in m ==> m[d] >= 0
    decreases |sessions|
  {
    if sessions == [] then map[]
    else
      var init := sessions[..|sessions| - 1];
      var t := sessions[|sessions| - 1];
      assert sessions == init + [t];
      var m := DailyTotals(init);
      forall d
        ensures WorkedOn(sessions, d) <==> d in AddSession(m, t)
        ensures d in AddSession(m, t) ==> AddSession(m, t)[d] >= 0
      {
        WorkedOnAppend(init, t, d);
        AddSessionAt(m, t, d);
      }
      AddSession(m, t)
  }

  /** Each day's total is the sum of the worked minutes of that day's closed
      sessions. */
  lemma {:induction false} DailyTotalsPerDay(sessions: seq<TimeEntry>, d: string)
    ensures d in DailyTotals(sessions) ==> DailyTotals(sessions)[d] == IntSum(Filter(sessions, ClosedOn(d)), SessionMinutes)
    ensures d !in DailyTotals(sessions) ==> IntSum(Filter(sessions, ClosedOn(d)), SessionMinutes) == 0
    decreases |sessions|
  {
    if sessions != [] {
      var init := sessions[..|sessions| - 1];
      var t := sessions[|sessions| - 1];
      assert sessions == init + [t];
      DailyTotalsPerDay(init, d);
      var m := DailyTotals(init);
      assert DailyTotals(sessions) == AddSession(m, t);
      AddSessionAt(m, t, d);
      var rest := IntSum(Filter(init, ClosedOn(d)), SessionMinutes);
      var total := IntSum(Filter(sessions, ClosedOn(d)), SessionMinutes);
      FilterAppend(init, [t], ClosedOn(d));
      IntSumAppend(Filter(init, ClosedOn(d)), Filter([t], ClosedOn(d)), SessionMinutes);
      if ClosedOn(d)(t) {
        assert Filter([t], ClosedOn(d)) == [t];
        assert total == rest + SessionMinutes(t);
      } else {
        assert Filter([t], ClosedOn(d)) == [];
        assert total == rest;
      }
    }
  }

  /** The minutes shown for today, `dailyTotals[today] || 0`. */
  function TodayTotal(sessions: seq<TimeEntry>, today: string): (n: int)
    ensures n >= 0
    ensures n == IntSum(Filter(sessions, ClosedOn(today)), SessionMinutes)
  {
    var m := DailyTotals(sessions);
    DailyTotalsPerDay(sessions, today);
    if today in m then m[today] else 0
  }

  /** The days listed, latest first: the keys of the totals. */
  function SortedDates(sessions: seq<TimeEntry>): (ds: seq<string>)
    ensures forall i, j :: 0 <= i < j < |ds| ==> Less(ds[j], ds[i])
    ensures forall d :: d in ds <==> d in DailyTotals(sessions)
  {
    var keys := SortUnique(Map(Filter(sessions, IsClosed), SessionDateOf));
    ReverseAscending(keys);
    ReverseMembership(keys);
    ClosedDatesMembership(sessions);
    Reverse(keys)
  }

  /** The dates of the closed sessions are the days worked. */
  lemma ClosedDatesMembership(sessions: seq<TimeEntry>)
    ensures forall d :: d in Map(Filter(sessions, IsClosed), SessionDateOf) <==> WorkedOn(sessions, d)
  {
    var closed := Filter(sessions, IsClosed);
    var dates := Map(closed, SessionDateOf);
    forall d | WorkedOn(sessions, d)
      ensures d in dates
    {
      var i :| 0 <= i < |sessions| && ClosedOn(d)(sessions[i]);
      assert sessions[i] in closed;
      var k :| 0 <= k < |closed| && closed[k] == sessions[i];
      assert dates[k] == d;
    }
    forall d | d in dates
      ensures WorkedOn(sessions, d)
    {
      var k :| 0 <= k < |closed| && dates[k] == d;
      assert closed[k] in sessions;
      var i :| 0 <= i < |sessions| && sessions[i] == closed[k];
      assert ClosedOn(d)(sessions[i]);
    }
  }

  /** The sessions of one day, latest start first (a stable sort). */
  function DaySessions(sessions: seq<TimeEntry>, d: string): (r: seq<TimeEntry>)
    ensures SortedDescBy(r, StartOf)
    ensures multiset(r) == multiset(Filter(sessions, HasKey(SessionDateOf, d)))
  {
    SortDescBy(Filter(sessions, HasKey(SessionDateOf, d)), StartOf)
  }

  /** Sessions of a day that started at the same time keep their stored
      order. */
  lemma DaySessionsStable(sessions: seq<TimeEntry>, d: string, start: string)
    ensures Filter(DaySessions(sessions, d), HasKey(StartOf, start))
         == Filter(Filter(sessions, HasKey(SessionDateOf, d)), HasKey(StartOf, start))
  {
    SortDescByStable(Filter(sessions, HasKey(SessionDateOf, d)), StartOf, start);
  }
}
