/** The application state and its handlers: adding a launch (with the
    daily-goal celebration and the configuration it remembers), replacing
    and deleting launches and work sessions, and the id and alert repairs
    done when stored or imported data is loaded. Today's date, fresh ids and
    the user's confirmation are parameters. */
module App {
  import opened Types
  import opened Seqs
  import opened Collections
  import opened TimeTracking

  datatype AppState = AppState(entries: seq<Entry>, timeEntries: seq<TimeEntry>, config: AppConfig)

  /** The gross of the launches dated `today`. */
  function TodayGross(entries: seq<Entry>, today: string): real
  {
    Sum(Filter(entries, (e: Entry) => e.date == today), GrossOf)
  }

  /** The celebration test as the handler writes it: today's gross before
      the launch is below the goal and that gross plus the launch's gross
      reaches it, whatever the launch's date. */
  predicate CelebrationAsWritten(entries: seq<Entry>, entry: Entry, goal: real, today: string)
  {
    var before := TodayGross(entries, today);
    before < goal && before + entry.grossAmount >= goal
  }

  /** A launch dated yesterday that would reach today's goal sets off the
      celebration although today's gross has not moved. */
  lemma CelebrationForAnotherDay()
    ensures var e := Entry("x", "2024-01-01", "10:00", "Loja", 300.0, 0.0, 0.0, 0.0, 300.0,
                           None, None, None, None, None, None, None);
      && CelebrationAsWritten([], e, 250.0, "2024-01-02")
      && TodayGross([] + [e], "2024-01-02") == TodayGross([], "2024-01-02")
      && TodayGross([] + [e], "2024-01-02") < 250.0
  {
    var e := Entry("x", "2024-01-01", "10:00", "Loja", 300.0, 0.0, 0.0, 0.0, 300.0,
                   None, None, None, None, None, None, None);
    assert Filter([e], (x: Entry) => x.date == "2024-01-02") == [];
  }

  /** The celebration as intended: the launch is counted only when it is
      dated today. */
  predicate GoalCelebration(entries: seq<Entry>, entry: Entry, goal: real, today: string)
  {
    var before := TodayGross(entries, today);
    before < goal && before + (if entry.date == today then entry.grossAmount else 0.0) >= goal
  }

  /** The intended celebration fires exactly when adding the launch takes
      today's gross from below the goal to the goal or above. */
  lemma GoalCelebrationCrossesGoal(entries: seq<Entry>, entry: Entry, goal: real, today: string)
    ensures GoalCelebration(entries, entry, goal, today)
        <==> TodayGross(entries, today) < goal <= TodayGross(entries + [entry], today)
  {
    var p := (e: Entry) => e.date == today;
    FilterAppend(entries, [entry], p);
    SumAppend(Filter(entries, p), Filter([entry], p), GrossOf);
  }

  /** What adding a launch produces: the new list, the new configuration
      and whether the goal celebration runs. */
  datatype AddOutcome = AddOutcome(entries: seq<Entry>, config: AppConfig, celebrate: bool)

  /** The configuration after a launch: a launch with a non-zero fuel price
      remembers it; an odometer closing with a non-zero reading remembers
      the reading. */
  function RememberFromEntry(config: AppConfig, entry: Entry): (c: AppConfig)
    ensures c.lastFuelPrice == (if Truthy(entry.fuelPrice) then entry.fuelPrice else config.lastFuelPrice)
    ensures c.lastTotalKm == (if entry.storeName == ClosingLabel && Truthy(entry.kmAtMaintenance)
                              then entry.kmAtMaintenance else config.lastTotalKm)
    ensures c == config.(lastFuelPrice := c.lastFuelPrice, lastTotalKm := c.lastTotalKm)
  {
    var c1 := if Truthy(entry.fuelPrice) then config.(lastFuelPrice := entry.fuelPrice) else config;
    if entry.storeName == ClosingLabel && Truthy(entry.kmAtMaintenance)
    then c1.(lastTotalKm := entry.kmAtMaintenance) else c1
  }

  /** On a launch dated today the handler's test and the intended one agree. */
  lemma CelebrationsAgreeToday(entries: seq<Entry>, entry: Entry, goal: real, today: string)
    requires entry.date == today
    ensures CelebrationAsWritten(entries, entry, goal, today) <==> GoalCelebration(entries, entry, goal, today)
  {
  }

  /** `addEntry`: appends the launch, decides the celebration as the handler
      writes it and updates the remembered fuel price and odometer reading.
      For a launch dated today the celebration marks today's gross crossing
      the goal; for another day it can fire although today's gross has not
      moved (see `CelebrationForAnotherDay`). */
  function AddEntry(state: AppState, entry: Entry, today: string): (r: AddOutcome)
    ensures |r.entries| == |state.entries| + 1
    ensures r.entries[..|state.entries|] == state.entries && r.entries[|state.entries|] == entry
    ensures r.celebrate <==> TodayGross(state.entries, today) < state.config.dailyGoal
                              <= TodayGross(state.entries, today) + entry.grossAmount
    ensures entry.date == today ==>
      (r.celebrate <==> TodayGross(state.entries, today) < state.config.dailyGoal <= TodayGross(r.entries, today))
    ensures r.config == RememberFromEntry(state.config, entry)
  {
    GoalCelebrationCrossesGoal(state.entries, entry, state.config.dailyGoal, today);
    AddOutcome(state.entries + [entry], RememberFromEntry(state.config, entry),
               CelebrationAsWritten(state.entries, entry, state.config.dailyGoal, today))
  }

  /** Closing the odometer through the add handler makes its reading the
      base of the next closing. */
  lemma ClosingSetsNextBase(state: AppState, entry: Entry, today: string)
    requires entry.storeName == ClosingLabel && entry.kmAtMaintenance.Some?
    requires entry.kmAtMaintenance.value > 0.0
    ensures AddEntry(state, entry, today).config.lastTotalKm == entry.kmAtMaintenance
  {
  }

  /** `updateEntry`: the launches with the edited launch's id become it. */
  function UpdateEntry(entries: seq<Entry>, updated: Entry): (r: seq<Entry>)
    ensures |r| == |entries|
    ensures forall i :: 0 <= i < |entries| ==> r[i] == (if entries[i].id == updated.id then updated else entries[i])
  {
    ReplaceById(entries, IdOf, updated)
  }

  /** Updating a launch keeps the order of ids. */
  lemma UpdateKeepsIds(entries: seq<Entry>, updated: Entry)
    ensures Map(UpdateEntry(entries, updated), IdOf) == Map(entries, IdOf)
  {
    ReplaceKeepsIds(entries, IdOf, updated);
  }

  /** `deleteEntry`: nothing for an empty id or when the user declines;
      otherwise the launches with the id are dropped. */
  function DeleteEntry(entries: seq<Entry>, id: string, confirmed: bool): (r: seq<Entry>)
    ensures id == "" || !confirmed ==> r == entries
    ensures id != "" && confirmed ==> |r| + Count(entries, HasKey(IdOf, id)) == |entries|
    ensures forall i :: 0 <= i < |r| ==> r[i] in entries
    ensures id != "" && confirmed ==> forall i :: 0 <= i < |r| ==> r[i].id != id
    ensures forall i :: 0 <= i < |entries| && entries[i].id != id ==> entries[i] in r
    ensures id != "" && confirmed ==> Without(r, entries, IdOf, id)
  {
    if id == "" || !confirmed then entries
    else
      RemoveCount(entries, IdOf, id);
      RemoveById(entries, IdOf, id)
  }

  /** Deleting a launch just added under a fresh id undoes the addition. */
  lemma DeleteUndoesAdd(state: AppState, entry: Entry, today: string)
    requires entry.id != ""
    requires forall i :: 0 <= i < |state.entries| ==> state.entries[i].id != entry.id
    ensures DeleteEntry(AddEntry(state, entry, today).entries, entry.id, true) == state.entries
  {
    RemoveUndoesAppend(state.entries, IdOf, entry);
  }

  /** `addTimeEntry`: the session is appended. */
  function AddTimeEntry(sessions: seq<TimeEntry>, t: TimeEntry): (r: seq<TimeEntry>)
    ensures |r| == |sessions| + 1 && r[..|sessions|] == sessions && r[|sessions|] == t
  {
    sessions + [t]
  }

  /** `updateTimeEntry`: the sessions with the id become the new version. */
  function UpdateTimeEntry(sessions: seq<TimeEntry>, updated: TimeEntry): (r: seq<TimeEntry>)
    ensures |r| == |sessions|
    ensures forall i :: 0 <= i < |sessions| ==>
      r[i] == (if sessions[i].id == updated.id then updated else sessions[i])
  {
    ReplaceById(sessions, SessionIdOf, updated)
  }

  /** `deleteTimeEntry`: when the user confirms, the sessions with the id
      are dropped (an empty id is not special here). */
  function DeleteTimeEntry(sessions: seq<TimeEntry>, id: string, confirmed: bool): (r: seq<TimeEntry>)
    ensures !confirmed ==> r == sessions
    ensures confirmed ==> |r| + Count(sessions, HasKey(SessionIdOf, id)) == |sessions|
    ensures confirmed ==> forall i :: 0 <= i < |r| ==> r[i].id != id
    ensures forall i :: 0 <= i < |r| ==> r[i] in sessions
    ensures forall i :: 0 <= i < |sessions| && sessions[i].id != id ==> sessions[i] in r
    ensures confirmed ==> Without(r, sessions, SessionIdOf, id)
  {
    if !confirmed then sessions
    else
      RemoveCount(sessions, SessionIdOf, id);
      RemoveById(sessions, SessionIdOf, id)
  }

  /** Finishing a session through the update handler replaces it in place:
      the other sessions and the order are kept. */
  lemma UpdateTimeEntryKeepsOthers(sessions: seq<TimeEntry>, updated: TimeEntry, i: nat)
    requires i < |sessions| && sessions[i].id != updated.id
    ensures UpdateTimeEntry(sessions, updated)[i] == sessions[i]
  {
  }

  // ---------------------------------------------------------------------
  // Loading and importing

  /** Gives every launch with an empty id a fresh one, `newId(i)` for the
      launch at position `i`; every other field is kept. */
  function SanitizeIds(entries: seq<Entry>, newId: nat -> string): (r: seq<Entry>)
    ensures |r| == |entries|
    ensures forall i :: 0 <= i < |entries| ==> r[i] == entries[i].(id := r[i].id)
    ensures forall i :: 0 <= i < |entries| && entries[i].id != "" ==> r[i].id == entries[i].id
    ensures forall i :: 0 <= i < |entries| && entries[i].id == "" ==> r[i].id == newId(i)
    ensures (forall i: nat :: newId(i) != "") ==> forall i :: 0 <= i < |r| ==> r[i].id != ""
  {
    seq(|entries|, i requires 0 <= i < |entries| =>
      if entries[i].id != "" then entries[i] else entries[i].(id := newId(i)))
  }

  /** With non-empty fresh ids every launch has an id afterwards, and a
      second pass changes nothing. */
  lemma SanitizeIdempotent(entries: seq<Entry>, newId: nat -> string)
    requires forall i: nat :: newId(i) != ""
    ensures forall i :: 0 <= i < |SanitizeIds(entries, newId)| ==> SanitizeIds(entries, newId)[i].id != ""
    ensures SanitizeIds(SanitizeIds(entries, newId), newId) == SanitizeIds(entries, newId)
  {
  }

  /** The stored configuration, when there is one, with the default alerts
      put in when its alert list is missing (an empty list is kept). */
  function LoadConfig(saved: Option<AppConfig>, current: AppConfig): (c: AppConfig)
    ensures saved.None? ==> c == current
    ensures saved.Some? && saved.value.maintenanceAlerts.Some? ==> c == saved.value
    ensures saved.Some? && saved.value.maintenanceAlerts.None? ==>
      c == saved.value.(maintenanceAlerts := Some(DefaultAlerts()))
    ensures saved.Some? ==> c.maintenanceAlerts.Some?
  {
    if saved.None? then current
    else if saved.value.maintenanceAlerts.None? then saved.value.(maintenanceAlerts := DefaultConfig().maintenanceAlerts)
    else saved.value
  }

  /** The state after loading from storage. */
  function Load(savedEntries: seq<Entry>, savedSessions: seq<TimeEntry>, savedConfig: Option<AppConfig>,
                current: AppConfig, newId: nat -> string): (s: AppState)
    ensures |s.entries| == |savedEntries|
    ensures forall i :: 0 <= i < |savedEntries| ==> s.entries[i] == savedEntries[i].(id := s.entries[i].id)
    ensures (forall i: nat :: newId(i) != "") ==> forall i :: 0 <= i < |s.entries| ==> s.entries[i].id != ""
    ensures s.timeEntries == savedSessions
    ensures s.config == LoadConfig(savedConfig, current)
    ensures savedConfig.Some? ==> s.config.maintenanceAlerts.Some?
  {
    AppState(SanitizeIds(savedEntries, newId), savedSessions, LoadConfig(savedConfig, current))
  }

  /** `importData`: the imported launches with their ids repaired; the
      sessions and the configuration are replaced only when the backup
      carries them. */
  function ImportData(state: AppState, entries: seq<Entry>, config: Option<AppConfig>,
                      sessions: Option<seq<TimeEntry>>, newId: nat -> string): (s: AppState)
    ensures |s.entries| == |entries|
    ensures forall i :: 0 <= i < |entries| ==> s.entries[i] == entries[i].(id := s.entries[i].id)
    ensures forall i :: 0 <= i < |entries| && entries[i].id != "" ==> s.entries[i].id == entries[i].id
    ensures (forall i: nat :: newId(i) != "") ==> forall i :: 0 <= i < |s.entries| ==> s.entries[i].id != ""
    ensures sessions.Some? ==> s.timeEntries == sessions.value
    ensures sessions.None? ==> s.timeEntries == state.timeEntries
    ensures config.Some? ==> s.config == config.value
    ensures config.None? ==> s.config == state.config
  {
    AppState(SanitizeIds(entries, newId), sessions.GetOr(state.timeEntries), config.GetOr(state.config))
  }
}
