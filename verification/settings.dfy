/** The settings screen: the goal and reserve sliders, the edits of the
    maintenance-alert list and the classification of an imported backup. */
module Settings {
  import opened Types
  import opened Seqs
  import opened Calculations
  import opened Collections

  // ---------------------------------------------------------------------
  // Sliders

  datatype SliderKey = GoalSlider | FuelSlider | FoodSlider | MaintenanceSlider

  /** The position a slider shows: the goal itself, a reserve as a
      percentage. */
  function SliderPosition(config: AppConfig, key: SliderKey): real
  {
    match key
    case GoalSlider => config.dailyGoal
    case FuelSlider => config.percFuel * 100.0
    case FoodSlider => config.percFood * 100.0
    case MaintenanceSlider => config.percMaintenance * 100.0
  }

  /** Moving a slider to `v`: the goal is stored as is, a reserve as the
      fraction `v / 100`; nothing else changes. */
  function SetSlider(config: AppConfig, key: SliderKey, v: real): (c: AppConfig)
    ensures key == GoalSlider ==> c == config.(dailyGoal := v)
    ensures key == FuelSlider ==> c == config.(percFuel := c.percFuel) && c.percFuel * 100.0 == v
    ensures key == FoodSlider ==> c == config.(percFood := c.percFood) && c.percFood * 100.0 == v
    ensures key == MaintenanceSlider ==>
      c == config.(percMaintenance := c.percMaintenance) && c.percMaintenance * 100.0 == v
    ensures SliderPosition(c, key) == v
  {
    match key
    case GoalSlider => config.(dailyGoal := v)
    case FuelSlider => config.(percFuel := v / 100.0)
    case FoodSlider => config.(percFood := v / 100.0)
    case MaintenanceSlider => config.(percMaintenance := v / 100.0)
  }

  /** Setting a slider to the position it shows changes nothing. */
  lemma SliderRoundTrip(config: AppConfig, key: SliderKey)
    ensures SetSlider(config, key, SliderPosition(config, key)) == config
  {
  }

  /** The range each slider allows: the goal from 50 to 1000, each reserve
      from 0 to 40 percent. */
  predicate InSliderRange(key: SliderKey, v: real)
  {
    if key == GoalSlider then 50.0 <= v <= 1000.0 else 0.0 <= v <= 40.0
  }

  /** Through the sliders every reserve fraction stays within [0, 0.40]. */
  lemma ReserveSliderBounds(config: AppConfig, key: SliderKey, v: real)
    requires key != GoalSlider && InSliderRange(key, v)
    ensures var c := SetSlider(config, key, v);
      && (key == FuelSlider ==> 0.0 <= c.percFuel <= 0.40)
      && (key == FoodSlider ==> 0.0 <= c.percFood <= 0.40)
      && (key == MaintenanceSlider ==> 0.0 <= c.percMaintenance <= 0.40)
  {
  }

  /** The sliders do not keep the reserves below the whole gross: at 40%
      each they reserve 120%, and every income then has a negative net. */
  lemma SlidersAllowNegativeNet(id: string, gross: real, date: string, time: string, store: string)
    requires gross > 0.0
    ensures var c := SetSlider(SetSlider(SetSlider(DefaultConfig(), FuelSlider, 40.0), FoodSlider, 40.0),
                               MaintenanceSlider, 40.0);
      && c.percFuel + c.percFood + c.percMaintenance == 1.2
      && CalculateDailyEntry(id, gross, date, time, store, c, None, None, None).netAmount < 0.0
  {
    var c := SetSlider(SetSlider(SetSlider(DefaultConfig(), FuelSlider, 40.0), FoodSlider, 40.0),
                       MaintenanceSlider, 40.0);
    assert c.percFuel == 0.4 && c.percFood == 0.4 && c.percMaintenance == 0.4;
  }

  // ---------------------------------------------------------------------
  // Maintenance alerts

  function AlertIdOf(a: MaintenanceAlert): string { a.id }

  /** The alert list of a configuration; an absent one reads as empty. */
  function AlertsOf(config: AppConfig): seq<MaintenanceAlert>
  {
    config.maintenanceAlerts.GetOr([])
  }

  /** An edit typed into an alert's row: a new description, or a new
      interval as `parseInt` read it (`None` for NaN). */
  datatype AlertEdit = Describe(text: string) | Interval(parsed: Option<int>)

  /** The edited alert; an interval that does not parse, like 0, is 0. */
  function ApplyEdit(a: MaintenanceAlert, edit: AlertEdit): (r: MaintenanceAlert)
    ensures r.id == a.id && r.lastKm == a.lastKm
    ensures edit.Describe? ==> r == a.(description := edit.text)
    ensures edit.Interval? && edit.parsed.Some? ==> r == a.(kmInterval := edit.parsed.value as real)
    ensures edit.Interval? && edit.parsed.None? ==> r == a.(kmInterval := 0.0)
  {
    match edit
    case Describe(text) => a.(description := text)
    case Interval(parsed) => a.(kmInterval := if parsed.Some? then parsed.value as real else 0.0)
  }

  /** Applies the edit to the alerts with the id, in place. */
  function ChangeAlert(config: AppConfig, id: string, edit: AlertEdit): (c: AppConfig)
    ensures c == config.(maintenanceAlerts := c.maintenanceAlerts)
    ensures c.maintenanceAlerts.Some?
    ensures |AlertsOf(c)| == |AlertsOf(config)|
    ensures forall i :: 0 <= i < |AlertsOf(config)| && AlertsOf(config)[i].id == id ==>
      AlertsOf(c)[i] == ApplyEdit(AlertsOf(config)[i], edit)
    ensures forall i :: 0 <= i < |AlertsOf(config)| && AlertsOf(config)[i].id != id ==>
      AlertsOf(c)[i] == AlertsOf(config)[i]
  {
    var alerts := Map(AlertsOf(config), (a: MaintenanceAlert) => if a.id == id then ApplyEdit(a, edit) else a);
    config.(maintenanceAlerts := Some(alerts))
  }

  /** Editing keeps the ids of the alerts, in order. */
  lemma ChangeKeepsIds(config: AppConfig, id: string, edit: AlertEdit)
    ensures Map(AlertsOf(ChangeAlert(config, id, edit)), AlertIdOf) == Map(AlertsOf(config), AlertIdOf)
  {
  }

  /** The alert a new row starts with. */
  function NewAlert(id: string): MaintenanceAlert
  {
    MaintenanceAlert(id, "Novo Alerta", 10000.0, 0.0)
  }

  /** Appends a fresh alert ("Novo Alerta", every 10000 km, last service at
      0 km); the id is a parameter. */
  function AddAlert(config: AppConfig, newId: string): (c: AppConfig)
    ensures c == config.(maintenanceAlerts := c.maintenanceAlerts)
    ensures c.maintenanceAlerts.Some?
    ensures |AlertsOf(c)| == |AlertsOf(config)| + 1
    ensures AlertsOf(c)[..|AlertsOf(config)|] == AlertsOf(config)
    ensures AlertsOf(c)[|AlertsOf(config)|] == NewAlert(newId)
  {
    config.(maintenanceAlerts := Some(AlertsOf(config) + [NewAlert(newId)]))
  }

  /** Drops every alert carrying the id. */
  function RemoveAlert(config: AppConfig, id: string): (c: AppConfig)
    ensures c == config.(maintenanceAlerts := c.maintenanceAlerts)
    ensures c.maintenanceAlerts.Some?
    ensures forall i :: 0 <= i < |AlertsOf(c)| ==> AlertsOf(c)[i].id != id && AlertsOf(c)[i] in AlertsOf(config)
    ensures forall i :: 0 <= i < |AlertsOf(config)| && AlertsOf(config)[i].id != id ==>
      AlertsOf(config)[i] in AlertsOf(c)
    ensures Without(AlertsOf(c), AlertsOf(config), AlertIdOf, id)
  {
    config.(maintenanceAlerts := Some(RemoveById(AlertsOf(config), AlertIdOf, id)))
  }

  /** Removing drops exactly the alerts with the id. */
  lemma RemoveAlertCount(config: AppConfig, id: string)
    ensures |AlertsOf(RemoveAlert(config, id))| + Count(AlertsOf(config), HasKey(AlertIdOf, id)) == |AlertsOf(config)|
  {
    RemoveCount(AlertsOf(config), AlertIdOf, id);
  }

  /** Removing an alert just added under a fresh id restores the list (an
      absent list comes back as an empty one). */
  lemma RemoveUndoesAdd(config: AppConfig, newId: string)
    requires forall i :: 0 <= i < |AlertsOf(config)| ==> AlertsOf(config)[i].id != newId
    ensures AlertsOf(RemoveAlert(AddAlert(config, newId), newId)) == AlertsOf(config)
  {
    RemoveUndoesAppend(AlertsOf(config), AlertIdOf, NewAlert(newId));
  }

  // ---------------------------------------------------------------------
  // Backup import

  /** A parsed JSON value. */
  datatype Json =
    | JNull
    | JBool(b: bool)
    | JNum(n: real)
    | JStr(s: string)
    | JArr(items: seq<Json>)
    | JObj(fields: map<string, Json>)

  /** What the import does with a file. */
  datatype ImportKind =
    | FullRestore(entries: seq<Json>, config: Option<Json>, timeEntries: Option<Json>)
    | EntriesOnly(entries: seq<Json>)
    | Invalid
    | Unreadable

  /** The field of an object, `undefined` (`None`) when missing. */
  function Lookup(fields: map<string, Json>, k: string): Option<Json>
  {
    if k in fields then Some(fields[k]) else None
  }

  /** Classifies the text of a backup, `None` standing for text
      `JSON.parse` rejects: an object whose `entries` is an array is a full
      snapshot; a bare array is the older entries-only format; reading a
      field of `null` throws and is reported like a parse error; anything
      else is invalid. */
  function ClassifyImport(data: Option<Json>): (k: ImportKind)
    ensures k.Unreadable? <==> data == None || data == Some(JNull)
    ensures k.FullRestore? <==> data.Some? && data.value.JObj? && Lookup(data.value.fields, "entries").Some?
                                && Lookup(data.value.fields, "entries").value.JArr?
    ensures k.EntriesOnly? <==> data.Some? && data.value.JArr?
    ensures k.FullRestore? ==> k.entries == data.value.fields["entries"].items
                               && k.config == Lookup(data.value.fields, "config")
                               && k.timeEntries == Lookup(data.value.fields, "timeEntries")
    ensures k.EntriesOnly? ==> k.entries == data.value.items
  {
    match data
    case None => Unreadable
    case Some(JNull) => Unreadable
    case Some(JObj(fields)) =>
      if "entries" in fields && fields["entries"].JArr? then
        FullRestore(fields["entries"].items, Lookup(fields, "config"), Lookup(fields, "timeEntries"))
      else Invalid
    case Some(JArr(items)) => EntriesOnly(items)
    case Some(_) => Invalid
  }

  /** The snapshot the full backup writes: the entries, the sessions, the
      configuration, the format version "3.0" and the export time. */
  function Snapshot(entries: seq<Json>, timeEntries: seq<Json>, config: Json, exportDate: string): Json
  {
    JObj(map["entries" := JArr(entries), "timeEntries" := JArr(timeEntries), "config" := config,
             "version" := JStr("3.0"), "exportDate" := JStr(exportDate)])
  }

  /** A full backup reads back as a full restore of what it saved. */
  lemma BackupRoundTrip(entries: seq<Json>, timeEntries: seq<Json>, config: Json, exportDate: string)
    ensures ClassifyImport(Some(Snapshot(entries, timeEntries, config, exportDate)))
         == FullRestore(entries, Some(config), Some(JArr(timeEntries)))
  {
  }

  /** An older backup, a bare list of entries, restores just the entries. */
  lemma OldBackupRoundTrip(entries: seq<Json>)
    ensures ClassifyImport(Some(JArr(entries))) == EntriesOnly(entries)
  {
  }
}
