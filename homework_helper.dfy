/**
 * The main window's rules for building records: the name a new process gets
 * when the dialog leaves it blank, the record an edit produces, and how the
 * add, edit and delete handlers drive the data manager. Dialogs and message
 * boxes are left out; what the user entered or answered is a parameter.
 */
module HomeworkHelper {
  import opened Wrappers
  import opened Text
  import opened DataModels
  import opened DataManagement

  // ---------------------------------------------------------------- Windows path names

  predicate IsSeparator(c: char) {
    c == '/' || c == '\\'
  }

  /** The path without a leading drive such as `C:`. */
  function WithoutDrive(path: string): (r: string)
    ensures r == path || (|path| >= 2 && path[1] == ':' && r == path[2..])
  {
    if |path| >= 2 && path[1] == ':' && !IsSeparator(path[0]) then path[2..] else path
  }

  /** The text after the last separator. */
  function AfterLastSeparator(path: string): (r: string)
    ensures |r| <= |path| && r == path[|path| - |r|..]
    ensures forall i :: 0 <= i < |r| ==> !IsSeparator(r[i])
    ensures |r| < |path| ==> IsSeparator(path[|path| - |r| - 1])
  {
    if path == [] || IsSeparator(path[|path| - 1]) then []
    else AfterLastSeparator(path[..|path| - 1]) + [path[|path| - 1]]
  }

  /** `os.path.basename` on Windows: the final component, after any drive and the last `\` or `/`. */
  function Basename(path: string): (r: string)
    ensures forall i :: 0 <= i < |r| ==> !IsSeparator(r[i])
  {
    AfterLastSeparator(WithoutDrive(path))
  }

  predicate IsDot(c: char) {
    c == '.'
  }

  /** The index of the last `.` in `s`, if any. */
  function LastDot(s: string): (r: Option<nat>)
    ensures r.None? ==> forall i :: 0 <= i < |s| ==> s[i] != '.'
    ensures r.Some? ==> r.value < |s| && s[r.value] == '.' && forall i :: r.value < i < |s| ==> s[i] != '.'
  {
    if s == [] then None
    else if s[|s| - 1] == '.' then Some(|s| - 1)
    else LastDot(s[..|s| - 1])
  }

  /**
   * `os.path.splitext(name)[0]` for a name without separators: the name is cut
   * at its last `.`, unless only dots precede that `.` (as in `.profile`).
   */
  function Stem(name: string): (r: string)
    ensures |r| <= |name| && r == name[..|r|]
    ensures r != name ==> name[|r|] == '.' && (forall i :: |r| < i < |name| ==> name[i] != '.')
    ensures r != name ==> !AllSatisfy(r, IsDot)
    ensures r == name ==> forall i :: 0 <= i < |name| && name[i] == '.' ==> AllSatisfy(name[..i], IsDot)
  {
    var d := LastDot(name);
    if d.Some? && !AllSatisfy(name[..d.value], IsDot) then name[..d.value] else name
  }

  /** Only an empty name has an empty stem. */
  lemma StemEmptyIffNameEmpty(name: string)
    ensures Stem(name) == [] <==> name == []
  {
    var r := Stem(name);
    if r != name {
      assert !AllSatisfy(r, IsDot);
      assert r != [];
    }
  }

  // ---------------------------------------------------------------- adding

  const DefaultProcessName: string := "새 프로세스"

  /**
   * The name `open_add_process_dialog` gives a new process: the entered name
   * without surrounding whitespace; when that is blank and a monitoring path
   * was given, the stem of the path's file name, or a default name when the
   * path has no file name.
   */
  function NameForNewProcess(enteredName: string, monitoringPath: string): (name: string)
    ensures Strip(enteredName) != [] ==> name == Strip(enteredName)
    ensures Strip(enteredName) == [] && monitoringPath == [] ==> name == []
    ensures Strip(enteredName) == [] && monitoringPath != [] ==> name != []
    ensures Strip(enteredName) == [] && monitoringPath != [] && Basename(monitoringPath) == [] ==> name == DefaultProcessName
    ensures Strip(enteredName) == [] && Basename(monitoringPath) != [] ==>
      name == Stem(Basename(monitoringPath)) && name == Basename(monitoringPath)[..|name|]
  {
    var name := Strip(enteredName);
    if name == [] && monitoringPath != [] then
      var base := Basename(monitoringPath);
      StemEmptyIffNameEmpty(base);
      if Stem(base) == [] then DefaultProcessName else Stem(base)
    else name
  }

  /** What the process dialog returns. */
  datatype DialogData = DialogData(
    name: string,
    monitoringPath: string,
    launchPath: string,
    serverResetTime: Option<string>,
    userCycleHours: Option<int>,
    mandatoryTimes: Option<seq<string>>,
    mandatoryTimeEnabled: bool)

  /** The record `open_add_process_dialog` builds: a fresh id, the derived name, no play recorded. */
  function NewProcessFromDialog(data: DialogData, freshId: ProcessId): (p: ManagedProcess)
    ensures p.id == freshId && p.lastPlayed == None
    ensures p.name == NameForNewProcess(data.name, data.monitoringPath)
    ensures p.monitoringPath == data.monitoringPath && p.launchPath == data.launchPath
    ensures p.serverResetTime == data.serverResetTime && p.userCycleHours == data.userCycleHours
    ensures p.mandatoryTimes == (if data.mandatoryTimes.Some? then data.mandatoryTimes.value else [])
    ensures p.mandatoryTimeEnabled == data.mandatoryTimeEnabled
  {
    NewManagedProcess(ProcessArgs(NameForNewProcess(data.name, data.monitoringPath), data.monitoringPath, data.launchPath,
      None, data.serverResetTime, data.userCycleHours, data.mandatoryTimes, data.mandatoryTimeEnabled, None), freshId)
  }

  // ---------------------------------------------------------------- editing

  /**
   * The record `handle_edit_action_for_row` builds: the original's id and
   * last-played time, the original name when the entered one is blank, and
   * every other field from the dialog.
   */
  function EditedProcess(original: ManagedProcess, data: DialogData): (p: ManagedProcess)
    ensures p.id == original.id && p.lastPlayed == original.lastPlayed
    ensures p.name == if Strip(data.name) != [] then Strip(data.name) else original.name
    ensures p.monitoringPath == data.monitoringPath && p.launchPath == data.launchPath
    ensures p.serverResetTime == data.serverResetTime && p.userCycleHours == data.userCycleHours
    ensures p.mandatoryTimes == (if data.mandatoryTimes.Some? then data.mandatoryTimes.value else [])
    ensures p.mandatoryTimeEnabled == data.mandatoryTimeEnabled
  {
    var name := if Strip(data.name) != [] then Strip(data.name) else original.name;
    NewManagedProcess(ProcessArgs(name, data.monitoringPath, data.launchPath, Some(original.id),
      data.serverResetTime, data.userCycleHours, data.mandatoryTimes, data.mandatoryTimeEnabled, original.lastPlayed), original.id)
  }

  // ---------------------------------------------------------------- the handlers

  /**
   * `open_add_process_dialog`. `accepted` is whether the dialog was accepted,
   * `data` what it returned, `freshId` the id the new record draws. Returns the
   * record it tried to add; the table is refreshed whenever one is returned.
   */
  method HandleAdd(dm: DataManager, accepted: bool, data: Option<DialogData>, freshId: ProcessId)
    returns (added: Option<ManagedProcess>)
    modifies dm`managedProcesses, dm`processSaves
    ensures !accepted || data.None? ==> added.None? && dm.managedProcesses == old(dm.managedProcesses) && dm.processSaves == old(dm.processSaves)
    ensures accepted && data.Some? ==> added == Some(NewProcessFromDialog(data.value, freshId))
    ensures added.Some? ==> (dm.managedProcesses ==
      if HasId(old(dm.managedProcesses), freshId) then old(dm.managedProcesses) else old(dm.managedProcesses) + [added.value])
    ensures added.Some? ==> (dm.processSaves ==
      if HasId(old(dm.managedProcesses), freshId) then old(dm.processSaves) else old(dm.processSaves) + [dm.managedProcesses])
    ensures UniqueIds(old(dm.managedProcesses)) ==> UniqueIds(dm.managedProcesses)
  {
    added := None;
    if !accepted || data.None? {
      return;
    }
    var p := NewProcessFromDialog(data.value, freshId);
    var _ := dm.AddProcess(p);
    added := Some(p);
  }

  /**
   * `handle_edit_action_for_row`. Returns whether the table was refreshed,
   * which happens exactly when the id is found and the dialog returned data.
   */
  method HandleEdit(dm: DataManager, processId: string, accepted: bool, data: Option<DialogData>)
    returns (refreshed: bool)
    modifies dm`managedProcesses, dm`processSaves
    ensures refreshed <==> HasId(old(dm.managedProcesses), processId) && accepted && data.Some?
    ensures !refreshed ==> dm.managedProcesses == old(dm.managedProcesses) && dm.processSaves == old(dm.processSaves)
    ensures refreshed ==>
      var i := FirstIndex(old(dm.managedProcesses), processId).value;
      dm.managedProcesses == old(dm.managedProcesses)[i := EditedProcess(old(dm.managedProcesses)[i], data.value)]
    ensures refreshed ==> dm.processSaves == old(dm.processSaves) + [dm.managedProcesses]
    ensures UniqueIds(old(dm.managedProcesses)) ==> UniqueIds(dm.managedProcesses)
  {
    refreshed := false;
    ghost var ps := dm.managedProcesses;
    var original := dm.GetProcessById(processId);
    if original.None? || !accepted || data.None? {
      return;
    }
    ghost var i := FirstIndex(ps, processId).value;
    assert original.value == ps[i] by {
      var k :| IsFirstMatch(ps, processId, k) && original.value == ps[k];
      assert k == i;
    }
    var updated := EditedProcess(original.value, data.value);
    assert updated.id == processId;
    refreshed := dm.UpdateProcess(updated);
  }

  /**
   * `handle_delete_action_for_row`. `confirmed` is whether the user answered
   * Yes. Returns whether the table was refreshed.
   */
  method HandleDelete(dm: DataManager, processId: string, confirmed: bool) returns (refreshed: bool)
    modifies dm`managedProcesses, dm`processSaves
    ensures refreshed <==> confirmed && HasId(old(dm.managedProcesses), processId)
    ensures dm.managedProcesses == if refreshed then Without(old(dm.managedProcesses), processId) else old(dm.managedProcesses)
    ensures dm.processSaves == if refreshed then old(dm.processSaves) + [dm.managedProcesses] else old(dm.processSaves)
    ensures UniqueIds(old(dm.managedProcesses)) ==> UniqueIds(dm.managedProcesses)
  {
    refreshed := false;
    var found := dm.GetProcessById(processId);
    if found.None? || !confirmed {
      return;
    }
    refreshed := dm.RemoveProcess(processId);
  }
}
