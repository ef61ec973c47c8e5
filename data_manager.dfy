/**
 * The in-memory store of managed processes and global settings. The list is
 * changed in place by add, remove and update-by-id; every successful change is
 * followed by a save. Files are abstracted: loading takes the outcome of
 * reading and decoding the JSON file, and saving appends the written snapshot
 * to a ghost log.
 */
module DataManagement {
  import opened Wrappers
  import opened DataModels

  // ---------------------------------------------------------------- the list, as values

  predicate HasId(ps: seq<ManagedProcess>, id: string) {
    exists i :: 0 <= i < |ps| && ps[i].id == id
  }

  /** No two entries share an id. */
  predicate UniqueIds(ps: seq<ManagedProcess>) {
    forall i, j :: 0 <= i < j < |ps| ==> ps[i].id != ps[j].id
  }

  /** `i` is the first index holding `id`. */
  predicate IsFirstMatch(ps: seq<ManagedProcess>, id: string, i: int) {
    0 <= i < |ps| && ps[i].id == id && forall j :: 0 <= j < i ==> ps[j].id != id
  }

  /** The index of the first entry with `id`, if any. */
  function FirstIndex(ps: seq<ManagedProcess>, id: string): (r: Option<nat>)
    ensures r.None? <==> !HasId(ps, id)
    ensures r.Some? ==> IsFirstMatch(ps, id, r.value)
  {
    if ps == [] then None
    else if ps[0].id == id then Some(0)
    else
      var rest := FirstIndex(ps[1..], id);
      assert forall i :: 1 <= i < |ps| ==> ps[i] == ps[1..][i - 1];
      if rest.Some? then Some(rest.value + 1) else None
  }

  /** How many entries carry `id`. */
  function CountId(ps: seq<ManagedProcess>, id: string): nat {
    if ps == [] then 0 else (if ps[0].id == id then 1 else 0) + CountId(ps[1..], id)
  }

  /** The list comprehension `[p for p in ps if p.id != id]`. */
  function Without(ps: seq<ManagedProcess>, id: string): (r: seq<ManagedProcess>)
    ensures |r| == |ps| - CountId(ps, id)
    ensures forall p :: p in r <==> p in ps && p.id != id
  {
    if ps == [] then []
    else if ps[0].id == id then Without(ps[1..], id)
    else [ps[0]] + Without(ps[1..], id)
  }

  /** The loop of `update_process`: the first entry with `p`'s id becomes `p`. */
  function ReplaceFirst(ps: seq<ManagedProcess>, p: ManagedProcess): (r: seq<ManagedProcess>)
    ensures |r| == |ps|
    ensures FirstIndex(ps, p.id).None? ==> r == ps
    ensures FirstIndex(ps, p.id).Some? ==> r == ps[FirstIndex(ps, p.id).value := p]
  {
    if ps == [] then []
    else if ps[0].id == p.id then [p] + ps[1..]
    else [ps[0]] + ReplaceFirst(ps[1..], p)
  }

  /** `a` is `b` with some entries left out, the rest in their original order. */
  predicate IsSubsequence(a: seq<ManagedProcess>, b: seq<ManagedProcess>)
    decreases |b|
  {
    if a == [] then true
    else if b == [] then false
    else if a[0] == b[0] then IsSubsequence(a[1..], b[1..])
    else IsSubsequence(a, b[1..])
  }

  lemma {:induction false} CountIdPositive(ps: seq<ManagedProcess>, id: string)
    ensures CountId(ps, id) > 0 <==> HasId(ps, id)
  {
    if ps != [] {
      CountIdPositive(ps[1..], id);
      if HasId(ps[1..], id) {
        var i :| 0 <= i < |ps[1..]| && ps[1..][i].id == id;
        assert ps[i + 1].id == id;
      }
      if HasId(ps, id) && ps[0].id != id {
        var i :| 0 <= i < |ps| && ps[i].id == id;
        assert ps[1..][i - 1].id == id;
      }
    }
  }

  /** Removal keeps the other entries in their original order, and shrinks the list exactly when the id was present. */
  lemma {:induction false} WithoutKeepsOrder(ps: seq<ManagedProcess>, id: string)
    ensures IsSubsequence(Without(ps, id), ps)
    ensures |Without(ps, id)| < |ps| <==> HasId(ps, id)
    ensures !HasId(ps, id) ==> Without(ps, id) == ps
  {
    CountIdPositive(ps, id);
    if ps != [] {
      WithoutKeepsOrder(ps[1..], id);
      CountIdPositive(ps[1..], id);
      var r := Without(ps, id);
      if ps[0].id != id {
        assert r[0] == ps[0] && r[1..] == Without(ps[1..], id);
      } else if r != [] {
        assert r[0] in r;
        assert r[0] != ps[0];
      }
    }
  }

  /** Every entry of a subsequence comes from an index of the original, in increasing order. */
  lemma {:induction false} SubsequenceUnique(a: seq<ManagedProcess>, b: seq<ManagedProcess>)
    requires IsSubsequence(a, b) && UniqueIds(b)
    ensures UniqueIds(a)
    decreases |b|
  {
    if a != [] && b != [] {
      SubsequenceUnique(if a[0] == b[0] then a[1..] else a, b[1..]);
      if a[0] == b[0] {
        forall j | 0 < j < |a| ensures a[0].id != a[j].id {
          SubsequenceMember(a[1..], b[1..], j - 1);
          var k :| 0 <= k < |b[1..]| && a[j] == b[1..][k];
          assert b[k + 1] == a[j];
        }
      }
    }
  }

  lemma {:induction false} SubsequenceMember(a: seq<ManagedProcess>, b: seq<ManagedProcess>, i: int)
    requires IsSubsequence(a, b) && 0 <= i < |a|
    ensures exists k :: 0 <= k < |b| && a[i] == b[k]
    decreases |b|
  {
    if a[0] == b[0] {
      if i == 0 {
        assert a[0] == b[0];
      } else {
        SubsequenceMember(a[1..], b[1..], i - 1);
        var k :| 0 <= k < |b[1..]| && a[1..][i - 1] == b[1..][k];
        assert a[i] == b[k + 1];
      }
    } else {
      SubsequenceMember(a, b[1..], i);
      var k :| 0 <= k < |b[1..]| && a[i] == b[1..][k];
      assert a[i] == b[k + 1];
    }
  }

  /** Appending an entry whose id is absent keeps ids unique. */
  lemma AppendFreshKeepsUnique(ps: seq<ManagedProcess>, p: ManagedProcess)
    requires UniqueIds(ps) && !HasId(ps, p.id)
    ensures UniqueIds(ps + [p])
  {
    var r := ps + [p];
    forall i, j | 0 <= i < j < |r| ensures r[i].id != r[j].id {
      if j == |ps| {
        assert r[i] == ps[i];
      }
    }
  }

  /** Removal keeps ids unique. */
  lemma WithoutKeepsUnique(ps: seq<ManagedProcess>, id: string)
    requires UniqueIds(ps)
    ensures UniqueIds(Without(ps, id))
  {
    WithoutKeepsOrder(ps, id);
    SubsequenceUnique(Without(ps, id), ps);
  }

  /** Replacing the entry that holds an id by another with the same id keeps ids unique. */
  lemma ReplaceFirstKeepsUnique(ps: seq<ManagedProcess>, p: ManagedProcess)
    requires UniqueIds(ps)
    ensures UniqueIds(ReplaceFirst(ps, p))
  {
  }

  /** With unique ids, the first match is the only match. */
  lemma FirstMatchIsOnlyMatch(ps: seq<ManagedProcess>, id: string, i: int)
    requires UniqueIds(ps) && IsFirstMatch(ps, id, i)
    ensures forall j :: 0 <= j < |ps| && ps[j].id == id ==> j == i
  {
  }

  // ---------------------------------------------------------------- loading

  /**
   * What reading a JSON file produced, for the outcomes the loader handles: no
   * file, UTF-8 text that is not valid JSON, or decoded content. `InvalidJson`
   * also stands for valid JSON of the wrong top-level shape (for example a list
   * for the settings or an object for the process list): the loader's own
   * indexing or keyword call then raises `TypeError`, which it treats the same way. A file that cannot be opened or is not UTF-8 raises past the
   * loader and is not an outcome here.
   */
  datatype FileRead<T> = FileMissing | InvalidJson | Decoded(content: T)

  /** `_load_global_settings`: a missing file, invalid JSON or refused content gives the default settings. */
  function LoadGlobalSettings(file: FileRead<Dict>): (g: GlobalSettings)
    ensures file.Decoded? && SettingsFromDict(file.content).Success? ==> g == SettingsFromDict(file.content).value
    ensures !file.Decoded? || SettingsFromDict(file.content).Failure? ==> g == DefaultSettings()
  {
    if file.Decoded? && SettingsFromDict(file.content).Success? then SettingsFromDict(file.content).value
    else DefaultSettings()
  }

  /** Every result's value in order, or the first failure: how a list comprehension stops at the first exception. */
  function AllOrFirstFailure<T, E>(rs: seq<Result<T, E>>): (r: Result<seq<T>, E>)
    ensures r.Success? <==> forall i :: 0 <= i < |rs| ==> rs[i].Success?
    ensures r.Success? ==> |r.value| == |rs| && forall i :: 0 <= i < |rs| ==> r.value[i] == rs[i].value
    ensures r.Failure? ==> FirstFailure(rs, r.error)
  {
    if rs == [] then Success([])
    else
      var tail := AllOrFirstFailure(rs[1..]);
      assert forall i :: 1 <= i < |rs| ==> rs[1..][i - 1] == rs[i];
      if rs[0].Failure? then
        FirstFailureAtHead(rs);
        Failure(rs[0].error)
      else if tail.Failure? then
        FirstFailureInTail(rs, tail.error);
        Failure(tail.error)
      else Success([rs[0].value] + tail.value)
  }

  /** `e` is the error of the first failed result in `rs`. */
  ghost predicate FirstFailure<T, E>(rs: seq<Result<T, E>>, e: E) {
    exists i :: 0 <= i < |rs| && rs[i].Failure? && IsFirstFailureWith(rs, i, e)
  }

  ghost predicate IsFirstFailureWith<T, E>(rs: seq<Result<T, E>>, i: int, e: E)
    requires 0 <= i < |rs| && rs[i].Failure?
  {
    rs[i] == Failure(e) && forall j :: 0 <= j < i ==> rs[j].Success?
  }

  lemma FirstFailureAtHead<T, E>(rs: seq<Result<T, E>>)
    requires rs != [] && rs[0].Failure?
    ensures FirstFailure(rs, rs[0].error)
  {
    assert IsFirstFailureWith(rs, 0, rs[0].error);
  }

  lemma FirstFailureInTail<T, E>(rs: seq<Result<T, E>>, e: E)
    requires rs != [] && rs[0].Success? && FirstFailure(rs[1..], e)
    ensures FirstFailure(rs, e)
  {
    var k :| 0 <= k < |rs[1..]| && rs[1..][k].Failure? && IsFirstFailureWith(rs[1..], k, e);
    assert forall j :: 1 <= j <= k ==> rs[j] == rs[1..][j - 1];
    assert IsFirstFailureWith(rs, k + 1, e);
  }

  /** `[ManagedProcess.from_dict(d) for d in ds]`, or the first refusal. Entry `i` draws `freshId(i)` if it needs one. */
  function ProcessesFromDicts(ds: seq<Dict>, freshId: nat -> ProcessId): (r: Result<seq<ManagedProcess>, DictError>)
    ensures r.Success? <==> forall i :: 0 <= i < |ds| ==> ProcessFromDict(ds[i], freshId(i)).Success?
    ensures r.Success? ==> (|r.value| == |ds|
      && forall i :: 0 <= i < |ds| ==> r.value[i] == ProcessFromDict(ds[i], freshId(i)).value)
  {
    var rs := seq(|ds|, i requires 0 <= i < |ds| => ProcessFromDict(ds[i], freshId(i)));
    assert forall i :: 0 <= i < |ds| ==> rs[i] == ProcessFromDict(ds[i], freshId(i));
    AllOrFirstFailure(rs)
  }

  /** `_load_managed_processes`: all entries or, on any refusal, a missing file or invalid JSON, the empty list. */
  function LoadManagedProcesses(file: FileRead<seq<Dict>>, freshId: nat -> ProcessId): (ps: seq<ManagedProcess>)
    ensures !file.Decoded? ==> ps == []
    ensures file.Decoded? && ProcessesFromDicts(file.content, freshId).Failure? ==> ps == []
    ensures file.Decoded? && ProcessesFromDicts(file.content, freshId).Success? ==> |ps| == |file.content|
  {
    if file.Decoded? then
      var r := ProcessesFromDicts(file.content, freshId);
      if r.Success? then r.value else []
    else []
  }

  /** A file written by `save_managed_processes` loads back as the same list. */
  lemma SavedListLoadsBack(ps: seq<ManagedProcess>, freshId: nat -> ProcessId)
    ensures LoadManagedProcesses(Decoded(seq(|ps|, i requires 0 <= i < |ps| => ProcessToDict(ps[i]))), freshId) == ps
  {
    var ds := seq(|ps|, i requires 0 <= i < |ps| => ProcessToDict(ps[i]));
    forall i | 0 <= i < |ds| ensures ProcessFromDict(ds[i], freshId(i)) == Success(ps[i]) {
      ProcessDictRoundTrip(ps[i], freshId(i));
    }
  }

  // ---------------------------------------------------------------- the store

  class DataManager {
    var globalSettings: GlobalSettings
    var managedProcesses: seq<ManagedProcess>
    /** Every list written to the processes file, oldest first. */
    ghost var processSaves: seq<seq<ManagedProcess>>
    /** Every settings value written to the settings file, oldest first. */
    ghost var settingsSaves: seq<GlobalSettings>

    constructor (settingsFile: FileRead<Dict>, processesFile: FileRead<seq<Dict>>, freshId: nat -> ProcessId)
      ensures globalSettings == LoadGlobalSettings(settingsFile)
      ensures managedProcesses == LoadManagedProcesses(processesFile, freshId)
      ensures processSaves == [] && settingsSaves == []
    {
      globalSettings := LoadGlobalSettings(settingsFile);
      managedProcesses := LoadManagedProcesses(processesFile, freshId);
      processSaves := [];
      settingsSaves := [];
    }

    method SaveGlobalSettings()
      modifies this`settingsSaves
      ensures settingsSaves == old(settingsSaves) + [globalSettings]
    {
      settingsSaves := settingsSaves + [globalSettings];
    }

    method SaveManagedProcesses()
      modifies this`processSaves
      ensures processSaves == old(processSaves) + [managedProcesses]
    {
      processSaves := processSaves + [managedProcesses];
    }

    /** Appends `process` unless its id is taken; saves only on success. */
    method AddProcess(process: ManagedProcess) returns (ok: bool)
      modifies this`managedProcesses, this`processSaves
      ensures ok <==> !HasId(old(managedProcesses), process.id)
      ensures managedProcesses == if ok then old(managedProcesses) + [process] else old(managedProcesses)
      ensures processSaves == if ok then old(processSaves) + [managedProcesses] else old(processSaves)
      ensures UniqueIds(old(managedProcesses)) ==> UniqueIds(managedProcesses)
    {
      if HasId(managedProcesses, process.id) {
        return false;
      }
      if UniqueIds(managedProcesses) {
        AppendFreshKeepsUnique(managedProcesses, process);
      }
      managedProcesses := managedProcesses + [process];
      SaveManagedProcesses();
      return true;
    }

    /** Drops every entry with `processId`; reports and saves only if the list shrank. */
    method RemoveProcess(processId: string) returns (ok: bool)
      modifies this`managedProcesses, this`processSaves
      ensures managedProcesses == Without(old(managedProcesses), processId)
      ensures ok <==> |managedProcesses| < |old(managedProcesses)|
      ensures ok <==> HasId(old(managedProcesses), processId)
      ensures processSaves == if ok then old(processSaves) + [managedProcesses] else old(processSaves)
      ensures UniqueIds(old(managedProcesses)) ==> UniqueIds(managedProcesses)
    {
      var initialLen := |managedProcesses|;
      WithoutKeepsOrder(managedProcesses, processId);
      if UniqueIds(managedProcesses) {
        WithoutKeepsUnique(managedProcesses, processId);
      }
      managedProcesses := Without(managedProcesses, processId);
      if |managedProcesses| < initialLen {
        SaveManagedProcesses();
        return true;
      }
      return false;
    }

    /** Replaces the first entry with `updated.id`, in place; saves only on success. */
    method UpdateProcess(updated: ManagedProcess) returns (ok: bool)
      modifies this`managedProcesses, this`processSaves
      ensures ok <==> HasId(old(managedProcesses), updated.id)
      ensures managedProcesses == ReplaceFirst(old(managedProcesses), updated)
      ensures processSaves == if ok then old(processSaves) + [managedProcesses] else old(processSaves)
      ensures UniqueIds(old(managedProcesses)) ==> UniqueIds(managedProcesses)
    {
      var i := 0;
      while i < |managedProcesses|
        invariant 0 <= i <= |managedProcesses|
        invariant forall j :: 0 <= j < i ==> managedProcesses[j].id != updated.id
      {
        if managedProcesses[i].id == updated.id {
          assert IsFirstMatch(managedProcesses, updated.id, i);
          managedProcesses := managedProcesses[i := updated];
          SaveManagedProcesses();
          return true;
        }
        i := i + 1;
      }
      return false;
    }

    /** The first entry with `processId`, or None. */
    method GetProcessById(processId: string) returns (r: Option<ManagedProcess>)
      ensures r.None? <==> !HasId(managedProcesses, processId)
      ensures r.Some? ==> exists i :: IsFirstMatch(managedProcesses, processId, i) && r.value == managedProcesses[i]
    {
      for i := 0 to |managedProcesses|
        invariant forall j :: 0 <= j < i ==> managedProcesses[j].id != processId
      {
        if managedProcesses[i].id == processId {
          assert IsFirstMatch(managedProcesses, processId, i);
          return Some(managedProcesses[i]);
        }
      }
      return None;
    }
  }
}
