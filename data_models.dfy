/**
 * The two persisted record types: a managed process (one tracked task) and the
 * global settings, with their keyword-argument constructors and their
 * conversion to and from the dictionaries stored as JSON.
 */
module DataModels {
  import opened Wrappers

  /** A process id is never empty: the constructor replaces an empty or missing id by a fresh one. */
  type ProcessId = s: string | s != [] witness "0"

  /** A JSON value as it appears in a stored dictionary. */
  datatype Value =
    | VNone
    | VBool(b: bool)
    | VInt(i: int)
    | VFloat(r: real)
    | VStr(s: string)
    | VStrList(items: seq<string>)

  type Dict = map<string, Value>

  /** Why `cls(**data)` refused a dictionary (Python raises `TypeError` in each case). */
  datatype DictError =
    | UnexpectedKeyword
    | MissingArgument(key: string)
    | WrongShape(key: string)

  // ---------------------------------------------------------------- ManagedProcess

  datatype ManagedProcess = ManagedProcess(
    id: ProcessId,
    name: string,
    monitoringPath: string,
    launchPath: string,
    serverResetTime: Option<string>,   // "HH:MM"
    userCycleHours: Option<int>,
    mandatoryTimes: seq<string>,
    mandatoryTimeEnabled: bool,
    lastPlayed: Option<real>)          // Unix timestamp

  /** The keyword arguments of `ManagedProcess.__init__`, before defaults and normalisation. */
  datatype ProcessArgs = ProcessArgs(
    name: string,
    monitoringPath: string,
    launchPath: string,
    id: Option<string>,
    serverResetTime: Option<string>,
    userCycleHours: Option<int>,
    mandatoryTimes: Option<seq<string>>,
    mandatoryTimeEnabled: bool,
    lastPlayed: Option<real>)

  /** A call that passes only the three required arguments. */
  function RequiredOnly(name: string, monitoringPath: string, launchPath: string): ProcessArgs {
    ProcessArgs(name, monitoringPath, launchPath, None, None, Some(24), None, false, None)
  }

  /**
   * `ManagedProcess(**args)`. The random `uuid4` id is the parameter `freshId`;
   * a missing or empty id is replaced by it, and a missing or empty list of
   * mandatory times becomes the empty list.
   */
  function NewManagedProcess(args: ProcessArgs, freshId: ProcessId): (p: ManagedProcess)
    ensures p.id == freshId || args.id == Some(p.id)
    ensures p.mandatoryTimes == [] <==> args.mandatoryTimes.None? || args.mandatoryTimes.value == []
  {
    ManagedProcess(
      if args.id.Some? && args.id.value != [] then args.id.value else freshId,
      args.name, args.monitoringPath, args.launchPath, args.serverResetTime, args.userCycleHours,
      if args.mandatoryTimes.Some? then args.mandatoryTimes.value else [],
      args.mandatoryTimeEnabled, args.lastPlayed)
  }

  /** A supplied non-empty id is kept; otherwise the fresh one is used. Every other argument is stored as given. */
  lemma ConstructorKeepsArguments(args: ProcessArgs, freshId: ProcessId)
    ensures var p := NewManagedProcess(args, freshId);
      && (args.id.Some? && args.id.value != [] ==> p.id == args.id.value)
      && (args.id.None? || args.id.value == [] ==> p.id == freshId)
      && p.name == args.name && p.monitoringPath == args.monitoringPath && p.launchPath == args.launchPath
      && p.serverResetTime == args.serverResetTime && p.userCycleHours == args.userCycleHours
      && p.mandatoryTimeEnabled == args.mandatoryTimeEnabled && p.lastPlayed == args.lastPlayed
      && (args.mandatoryTimes.None? || args.mandatoryTimes.value == [] ==> p.mandatoryTimes == [])
      && (args.mandatoryTimes.Some? ==> p.mandatoryTimes == args.mandatoryTimes.value)
  {
  }

  /** The defaults: a 24-hour cycle, mandatory times off and empty, never played, a fresh id. */
  lemma ConstructorDefaults(name: string, monitoringPath: string, launchPath: string, freshId: ProcessId)
    ensures var p := NewManagedProcess(RequiredOnly(name, monitoringPath, launchPath), freshId);
      && p.id == freshId && p.userCycleHours == Some(24) && p.serverResetTime == None
      && p.mandatoryTimes == [] && !p.mandatoryTimeEnabled && p.lastPlayed == None
  {
  }

  /** The attribute names of a managed process, which are also the constructor's keyword names. */
  const ProcessKeys: set<string> := {
    "id", "name", "monitoring_path", "launch_path", "server_reset_time_str", "user_cycle_hours",
    "mandatory_times_str", "is_mandatory_time_enabled", "last_played_timestamp"}

  function OptionalString(v: Option<string>): Value {
    if v.Some? then VStr(v.value) else VNone
  }

  function OptionalInt(v: Option<int>): Value {
    if v.Some? then VInt(v.value) else VNone
  }

  function OptionalFloat(v: Option<real>): Value {
    if v.Some? then VFloat(v.value) else VNone
  }

  /** `to_dict`: the instance's attribute dictionary. */
  function ProcessToDict(p: ManagedProcess): (d: Dict)
    ensures d.Keys == ProcessKeys
  {
    map[
      "id" := VStr(p.id),
      "name" := VStr(p.name),
      "monitoring_path" := VStr(p.monitoringPath),
      "launch_path" := VStr(p.launchPath),
      "server_reset_time_str" := OptionalString(p.serverResetTime),
      "user_cycle_hours" := OptionalInt(p.userCycleHours),
      "mandatory_times_str" := VStrList(p.mandatoryTimes),
      "is_mandatory_time_enabled" := VBool(p.mandatoryTimeEnabled),
      "last_played_timestamp" := OptionalFloat(p.lastPlayed)]
  }

  // Reading one keyword argument out of a dictionary: a missing key takes the default.

  function StringArg(d: Dict, key: string): Result<string, DictError> {
    if key !in d then Failure(MissingArgument(key))
    else if d[key].VStr? then Success(d[key].s)
    else Failure(WrongShape(key))
  }

  function OptionalStringArg(d: Dict, key: string, default: Option<string>): Result<Option<string>, DictError> {
    if key !in d then Success(default)
    else match d[key]
      case VNone => Success(None)
      case VStr(s) => Success(Some(s))
      case _ => Failure(WrongShape(key))
  }

  function OptionalIntArg(d: Dict, key: string, default: Option<int>): Result<Option<int>, DictError> {
    if key !in d then Success(default)
    else match d[key]
      case VNone => Success(None)
      case VInt(i) => Success(Some(i))
      case _ => Failure(WrongShape(key))
  }

  function OptionalFloatArg(d: Dict, key: string, default: Option<real>): Result<Option<real>, DictError> {
    if key !in d then Success(default)
    else match d[key]
      case VNone => Success(None)
      case VFloat(r) => Success(Some(r))
      case VInt(i) => Success(Some(i as real))
      case _ => Failure(WrongShape(key))
  }

  function OptionalListArg(d: Dict, key: string): Result<Option<seq<string>>, DictError> {
    if key !in d then Success(None)
    else match d[key]
      case VNone => Success(None)
      case VStrList(items) => Success(Some(items))
      case _ => Failure(WrongShape(key))
  }

  function BoolArg(d: Dict, key: string, default: bool): Result<bool, DictError> {
    if key !in d then Success(default)
    else if d[key].VBool? then Success(d[key].b)
    else Failure(WrongShape(key))
  }

  function FloatArg(d: Dict, key: string, default: real): Result<real, DictError> {
    if key !in d then Success(default)
    else match d[key]
      case VFloat(r) => Success(r)
      case VInt(i) => Success(i as real)
      case _ => Failure(WrongShape(key))
  }

  /** The keyword arguments `cls(**data)` would receive, or the reason it raises. */
  function ProcessArgsFromDict(d: Dict): Result<ProcessArgs, DictError> {
    if exists k :: k in d && k !in ProcessKeys then
      Failure(UnexpectedKeyword)
    else
      var name := StringArg(d, "name");
      var monitoringPath := StringArg(d, "monitoring_path");
      var launchPath := StringArg(d, "launch_path");
      var id := OptionalStringArg(d, "id", None);
      var reset := OptionalStringArg(d, "server_reset_time_str", None);
      var cycle := OptionalIntArg(d, "user_cycle_hours", Some(24));
      var mandatory := OptionalListArg(d, "mandatory_times_str");
      var enabled := BoolArg(d, "is_mandatory_time_enabled", false);
      var lastPlayed := OptionalFloatArg(d, "last_played_timestamp", None);
      if name.Failure? then Failure(name.error)
      else if monitoringPath.Failure? then Failure(monitoringPath.error)
      else if launchPath.Failure? then Failure(launchPath.error)
      else if id.Failure? then Failure(id.error)
      else if reset.Failure? then Failure(reset.error)
      else if cycle.Failure? then Failure(cycle.error)
      else if mandatory.Failure? then Failure(mandatory.error)
      else if enabled.Failure? then Failure(enabled.error)
      else if lastPlayed.Failure? then Failure(lastPlayed.error)
      else Success(ProcessArgs(name.value, monitoringPath.value, launchPath.value, id.value, reset.value,
                               cycle.value, mandatory.value, enabled.value, lastPlayed.value))
  }

  /** `ManagedProcess.from_dict(data)`, that is `cls(**data)`. */
  function ProcessFromDict(d: Dict, freshId: ProcessId): (r: Result<ManagedProcess, DictError>)
    ensures (exists k :: k in d && k !in ProcessKeys) ==> r.Failure? && r.error.UnexpectedKeyword?
    ensures r.Success? ==> forall k :: k in d ==> k in ProcessKeys
    ensures r.Success? && "id" in d && d["id"].VStr? && d["id"].s != [] ==> r.value.id == d["id"].s
  {
    var args := ProcessArgsFromDict(d);
    if args.Success? then Success(NewManagedProcess(args.value, freshId)) else Failure(args.error)
  }

  /** `from_dict(to_dict(p))` rebuilds `p` field for field, id included; no fresh id is drawn. */
  lemma ProcessDictRoundTrip(p: ManagedProcess, freshId: ProcessId)
    ensures ProcessFromDict(ProcessToDict(p), freshId) == Success(p)
  {
    var d := ProcessToDict(p);
    assert !exists k :: k in d && k !in ProcessKeys;
  }

  // ---------------------------------------------------------------- GlobalSettings

  datatype GlobalSettings = GlobalSettings(
    sleepStartTime: string,             // "HH:MM"
    sleepEndTime: string,               // "HH:MM"
    sleepCorrectionAdvanceNotifyHours: real,
    cycleDeadlineAdvanceNotifyHours: real,
    runOnStartup: bool)

  /** `GlobalSettings()` with every default. */
  function DefaultSettings(): (g: GlobalSettings)
    ensures g.sleepStartTime == "00:00" && g.sleepEndTime == "08:00"
    ensures g.sleepCorrectionAdvanceNotifyHours == 1.0 && g.cycleDeadlineAdvanceNotifyHours == 2.0
    ensures !g.runOnStartup
  {
    GlobalSettings("00:00", "08:00", 1.0, 2.0, false)
  }

  const SettingsKeys: set<string> := {
    "sleep_start_time_str", "sleep_end_time_str", "sleep_correction_advance_notify_hours",
    "cycle_deadline_advance_notify_hours", "run_on_startup"}

  function SettingsToDict(g: GlobalSettings): (d: Dict)
    ensures d.Keys == SettingsKeys
  {
    map[
      "sleep_start_time_str" := VStr(g.sleepStartTime),
      "sleep_end_time_str" := VStr(g.sleepEndTime),
      "sleep_correction_advance_notify_hours" := VFloat(g.sleepCorrectionAdvanceNotifyHours),
      "cycle_deadline_advance_notify_hours" := VFloat(g.cycleDeadlineAdvanceNotifyHours),
      "run_on_startup" := VBool(g.runOnStartup)]
  }

  /** The backward-compatibility step of `from_dict`: a dictionary without `run_on_startup` gets it as False. */
  function WithRunOnStartupDefault(d: Dict): (r: Dict)
    ensures "run_on_startup" in r
    ensures "run_on_startup" !in d ==> r["run_on_startup"] == VBool(false)
    ensures r.Keys == d.Keys + {"run_on_startup"}
    ensures forall k :: k in d ==> r[k] == d[k]
  {
    if "run_on_startup" in d then d else d["run_on_startup" := VBool(false)]
  }

  /** `cls(**data)` for the settings: every keyword has a default. */
  function SettingsFromCompleteDict(d: Dict): Result<GlobalSettings, DictError> {
    if exists k :: k in d && k !in SettingsKeys then
      Failure(UnexpectedKeyword)
    else
      var sleepStart := if "sleep_start_time_str" in d then StringArg(d, "sleep_start_time_str") else Success("00:00");
      var sleepEnd := if "sleep_end_time_str" in d then StringArg(d, "sleep_end_time_str") else Success("08:00");
      var sleepAdvance := FloatArg(d, "sleep_correction_advance_notify_hours", 1.0);
      var cycleAdvance := FloatArg(d, "cycle_deadline_advance_notify_hours", 2.0);
      var runOnStartup := BoolArg(d, "run_on_startup", false);
      if sleepStart.Failure? then Failure(sleepStart.error)
      else if sleepEnd.Failure? then Failure(sleepEnd.error)
      else if sleepAdvance.Failure? then Failure(sleepAdvance.error)
      else if cycleAdvance.Failure? then Failure(cycleAdvance.error)
      else if runOnStartup.Failure? then Failure(runOnStartup.error)
      else Success(GlobalSettings(sleepStart.value, sleepEnd.value, sleepAdvance.value, cycleAdvance.value,
                                  runOnStartup.value))
  }

  /** `GlobalSettings.from_dict(data)`. */
  function SettingsFromDict(d: Dict): (r: Result<GlobalSettings, DictError>)
    ensures (exists k :: k in d && k !in SettingsKeys) ==> r.Failure? && r.error.UnexpectedKeyword?
    ensures r.Success? && "run_on_startup" !in d ==> !r.value.runOnStartup
    ensures r.Success? && "run_on_startup" in d ==> d["run_on_startup"] == VBool(r.value.runOnStartup)
  {
    var full := WithRunOnStartupDefault(d);
    assert forall k :: k in d && k !in SettingsKeys ==> k in full && k !in SettingsKeys;
    SettingsFromCompleteDict(full)
  }

  /** An empty dictionary gives the default settings. */
  lemma EmptySettingsDictIsDefault()
    ensures SettingsFromDict(map[]) == Success(DefaultSettings())
  {
    var full := WithRunOnStartupDefault(map[]);
    assert full == map["run_on_startup" := VBool(false)];
    assert !exists k :: k in full && k !in SettingsKeys;
  }

  /** `from_dict(to_dict(g))` gives back `g`. */
  lemma SettingsDictRoundTrip(g: GlobalSettings)
    ensures SettingsFromDict(SettingsToDict(g)) == Success(g)
  {
    var d := SettingsToDict(g);
    assert WithRunOnStartupDefault(d) == d;
    assert !exists k :: k in d && k !in SettingsKeys;
  }
}
