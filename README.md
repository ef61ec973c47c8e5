# HomeworkHelper in Dafny

HomeworkHelper is a desktop tool that tracks recurring "homework": games and
other programs that should be played or run once per cycle. The user registers
*managed processes*. Each has a name, a monitoring path, a launch command,
optional server-reset and mandatory times, a cycle length in hours and the
time it was last played. The tool stores them as JSON, launches them, shows
a progress bar of the current cycle, and raises Windows toast notifications
that bring the main window forward on the right row when clicked.

This project models the core of that tool:

- `DataModels` (`data_models.dfy`): the two records, `ManagedProcess` and
  `GlobalSettings`. Covers their keyword constructors with defaults and
  fresh ids, their dictionary views, and reading them back from dictionaries.
- `DataManagement` (`data_manager.dfy`): the store, a class `DataManager`
  holding the settings and the list of processes. Covers loading with
  fallbacks, and add, remove, update and lookup on the list. Saves are kept
  as a ghost log of the list states written.
- `WidgetSystem` (`widget_system.dfy`): the desktop widget's handle, a class
  with its position and coordinates. Covers edge snapping after a drag,
  placement on an edge, the Korean position names, and the cycle
  progress/remaining-time summary.
- `Notifier` (`notifier.dfy`) and `UrlEncoding` (`url_encoding.dfy`): the
  toast argument string and its parser. The parser is a loop over the
  `&`-separated pairs. Decoding follows `urllib.parse`: `quote_plus` over
  UTF-8, and `unquote_plus` with UTF-8 replacement decoding. Also covers the
  `'NONE'` sentinel for "no task", and what is handed to the operating system.
- `Launcher` (`launcher.dfy`): classifying a launch command by suffix,
  extracting the URL of a `.url` shortcut, and the decision logic of
  `launch_process`. Operating-system call outcomes are inputs, and the
  launch reports the calls it makes.
- `HomeworkHelper` (`homework_helper.dfy`): the Windows `basename`/`splitext`
  used to name a new process, the record an edit produces, and the add,
  edit and delete handlers driving a `DataManager`.
- `Text` and `Wrappers`: Python's `str.strip`, case-insensitive
  suffix/prefix tests, and `Option`/`Result`.

The main results are these:

- A saved process list loads back unchanged: `SavedListLoadsBack` and
  `ProcessDictRoundTrip`.
- Every store operation keeps process ids unique.
- `quote_plus` followed by `unquote_plus` is the identity on all text
  (`QuoteRoundTrip`). So a toast always hands back the task id it was sent
  with (`TaskIdRoundTrip`), except that an empty id or the literal text
  `NONE` comes back as "no task".
- The drag-snapping rule picks the nearest edge in three quadrants of the
  screen but the farther one in the top-right quadrant (see Findings).

## Model

| member | source | states |
|---|---|---|
| DataModels.ConstructorKeepsArguments | data_models.py:7-28 | a supplied non-empty id is kept, otherwise the fresh id is used; a supplied mandatory-times list is kept and a missing or empty one becomes `[]`; every other argument is stored unchanged |
| DataModels.NewManagedProcess | data_models.py:7-28 | the id is either the supplied one or the fresh one; the mandatory-times list is empty exactly when none or an empty one was supplied |
| DataModels.ConstructorDefaults | data_models.py:7-16 | with only name and paths given: fresh id, 24-hour cycle, no reset time, no mandatory times, mandatory times off, never played |
| DataModels.ProcessToDict | data_models.py:33-35 | the dictionary has exactly the nine attribute names as keys |
| DataModels.ProcessFromDict | data_models.py:37-40 | a key that is not a constructor keyword is refused; success implies every key is known; a non-empty string id is kept |
| DataModels.ProcessDictRoundTrip | data_models.py:33-40 | `from_dict(to_dict(p)) == p` for every process |
| DataModels.DefaultSettings | data_models.py:43-54 | defaults "00:00", "08:00", 1.0, 2.0 and run-on-startup off |
| DataModels.SettingsToDict | data_models.py:56-57 | the dictionary has exactly the five attribute names as keys |
| DataModels.WithRunOnStartupDefault | data_models.py:62-63 | adds `run_on_startup = False` only when the key is missing and leaves every other entry unchanged |
| DataModels.SettingsFromDict | data_models.py:59-64 | unknown keys are refused; a missing `run_on_startup` reads as false, a present one is taken over |
| DataModels.EmptySettingsDictIsDefault | data_models.py:43-64 | an empty dictionary gives the default settings |
| DataModels.SettingsDictRoundTrip | data_models.py:56-64 | `from_dict(to_dict(g)) == g` for all settings |
| DataManagement.FirstIndex | data_manager.py:92-97 | none exactly when no entry has the id; otherwise the first entry with it |
| DataManagement.Without | data_manager.py:75 | the filter keeps exactly the entries with another id, shrinking the list by the number of matches |
| DataManagement.WithoutKeepsOrder | data_manager.py:74-78 | the filtered list is a subsequence of the old one, is shorter exactly when the id was present, and equals it otherwise |
| DataManagement.ReplaceFirst | data_manager.py:84-86 | only the first entry with the id is replaced; without a match the list is unchanged |
| DataManagement.AppendFreshKeepsUnique | data_manager.py:65-68 | appending a process whose id is absent keeps ids unique |
| DataManagement.WithoutKeepsUnique | data_manager.py:75 | filtering keeps ids unique |
| DataManagement.ReplaceFirstKeepsUnique | data_manager.py:84-86 | replacing the first match with a record of the same id keeps ids unique |
| DataManagement.FirstMatchIsOnlyMatch | data_manager.py:84-88 | with unique ids the first match is the only match, so `update_process` loses no other record |
| DataManagement.LoadGlobalSettings | data_manager.py:22-32 | a decodable, acceptable file gives its settings; a missing file, text that is not valid JSON, or refused content gives the defaults |
| DataManagement.AllOrFirstFailure | data_manager.py:48 | the comprehension succeeds exactly when every entry does, keeps order and length, and otherwise reports the first failure |
| DataManagement.ProcessesFromDicts | data_manager.py:48 | the list is built exactly when every entry loads, entry by entry |
| DataManagement.LoadManagedProcesses | data_manager.py:42-52 | a missing file, text that is not valid JSON, or any refused entry gives `[]`; otherwise one process per entry |
| DataManagement.SavedListLoadsBack | data_manager.py:42-61 | loading the dictionaries that a save writes gives back the same list |
| DataManagement.DataManager.constructor | data_manager.py:11-20 | the store starts with the loaded settings and list and an empty save log |
| DataManagement.DataManager.SaveGlobalSettings | data_manager.py:34-40 | the current settings are appended to the save log |
| DataManagement.DataManager.SaveManagedProcesses | data_manager.py:54-61 | the current list is appended to the save log |
| DataManagement.DataManager.AddProcess | data_manager.py:63-70 | succeeds exactly when the id is new; then the process is appended and the list saved, otherwise nothing changes; ids stay unique |
| DataManagement.DataManager.RemoveProcess | data_manager.py:72-80 | the list becomes the filtered list; success exactly when it shrank, that is when the id was present; saved only on success; ids stay unique |
| DataManagement.DataManager.UpdateProcess | data_manager.py:82-90 | succeeds exactly when the id is present; the first match is replaced and the list saved; ids stay unique |
| DataManagement.DataManager.GetProcessById | data_manager.py:92-97 | none exactly when no entry has the id, otherwise the first entry that has it; the store is unchanged |
| WidgetSystem.SnapEdge | python/widget_system.py:210-250 | the chosen edge lies on the centre's side of the screen: never right in the left half, never left in the right half, never bottom in the upper half, never top in the lower half |
| WidgetSystem.SnapQuadrants | python/widget_system.py:224-250 | the chosen edge is always one of the two edges of the centre's quadrant; outside the top-right quadrant it is the side edge exactly when that edge is strictly nearer, inside it exactly when the side edge is not strictly nearer |
| WidgetSystem.NearestEdge | python/widget_system.py:210-211 | the corrected rule: one of the quadrant's two edges, and no farther than either |
| WidgetSystem.NearestEdgeIsNearest | python/widget_system.py:210-211 | on an even-sized screen the corrected rule's edge is at least as close as any of the four edges |
| WidgetSystem.SnapEdgeIsNearestOutsideTopRight | python/widget_system.py:224-236 | outside the top-right quadrant the code picks the nearest edge |
| WidgetSystem.SnapEdgeTopRightPicksFarther | python/widget_system.py:238-243 | in the top-right quadrant, when the two distances differ, the code picks the farther edge |
| WidgetSystem.SnapEdgeTopRightExample | python/widget_system.py:238-243 | a handle centred 10 px from the right edge and 400 px from the top snaps to the top |
| WidgetSystem.Placement | python/widget_system.py:120-136 | the handle is flush with its edge and centred along it, the two margins differing by at most one pixel |
| WidgetSystem.WidgetHandle.constructor | python/widget_system.py:76-86 | a new handle has its position and size and is placed on its edge, with no position change announced |
| WidgetSystem.WidgetHandle.UpdatePosition | python/widget_system.py:120-139 | the handle is moved to its placement and the original position is recorded |
| WidgetSystem.WidgetHandle.DragMove | python/widget_system.py:198-202 | while a drag is under way and the position is unlocked the handle moves to the mouse position; otherwise it stays |
| WidgetSystem.WidgetHandle.SnapToEdge | python/widget_system.py:210-256 | the position becomes the edge chosen from the handle's centre; the change is announced only if the edge differs; the handle is re-placed |
| WidgetSystem.PositionText | python/widget_system.py:858-866 | the name of a position reads back as that position |
| WidgetSystem.PositionEnum | python/widget_system.py:868-876 | each of the three other names gives its position, and anything else gives RIGHT |
| WidgetSystem.PositionTextInjective | python/widget_system.py:858-876 | different positions have different names |
| WidgetSystem.RemainingHours | python/widget_system.py:501 | the remaining time is `max(cycle - elapsed, 0)`: never negative, never below cycle minus elapsed, and equal to one of the two |
| WidgetSystem.HasRecord | python/widget_system.py:484 | there is no record exactly when the timestamp is missing or `0.0` or the cycle is missing or `0`, as Python's truthiness test decides |
| WidgetSystem.RemainingText | python/widget_system.py:503-514 | days (with or without hours) at 24 hours or more, hours from 1 up to 24, minutes below 1 hour |
| WidgetSystem.CalculateProgress | python/widget_system.py:482-516 | no timestamp or no cycle gives 0% and "no record"; otherwise at most 100% with a remaining-time label |
| WidgetSystem.RemainingTextMeaning | python/widget_system.py:503-514 | each number in the label is the truncated part of the remaining time: whole days with at most 23 further whole hours, whole hours below 24, or whole minutes below 60 |
| WidgetSystem.ProgressFullAfterCycle | python/widget_system.py:487-501 | once a whole cycle has passed the bar is at 100% with 0 minutes left |
| WidgetSystem.ProgressWithinCycle | python/widget_system.py:487-498 | within the cycle the bar shows the elapsed fraction, from 0 up to but not including 100, and the label describes the hours left until the cycle ends |
| UrlEncoding.Utf8RoundTrip | python/notifier.py:24 | UTF-8 decoding with replacement undoes UTF-8 encoding for every text |
| UrlEncoding.QuotePlusHasNoDelimiters | python/notifier.py:64-66 | a `quote_plus`-encoded text contains neither `&` nor `=` |
| UrlEncoding.QuoteRoundTrip | python/notifier.py:24 | `unquote_plus(quote_plus(s)) == s` for every text |
| UrlEncoding.QuotePlus | python/notifier.py:64-66 | `quote_plus` writes only unreserved characters, `+` and `%` |
| UrlEncoding.Unquote | python/notifier.py:24 | text without `%` comes back unchanged |
| UrlEncoding.UnquotePlus | python/notifier.py:24 | text without `%` comes back with each `+` turned into a space and nothing else changed |
| Text.StripQuotes | launcher.py:53 | the stripped text neither starts nor ends with `"` |
| Text.Strip | homework_helper.py:426 | the stripped text neither starts nor ends with whitespace |
| Text.StripBlank | homework_helper.py:426-428 | `strip()` gives the empty text exactly when the text is all whitespace |
| Notifier.Split | python/notifier.py:22 | at least one piece, and no piece contains the separator |
| Notifier.SplitJoin | python/notifier.py:22 | splitting a join of separator-free pieces gives the pieces back |
| Notifier.SplitAtFirst | python/notifier.py:24 | the key is the text before the first `=` and the value everything after it, which may contain `=` |
| Notifier.ParseArgumentsString | python/notifier.py:17-26 | the loop builds the dictionary of the decoded pairs in order; no string or an empty string gives the empty dictionary |
| Notifier.ParsedKeys | python/notifier.py:22-24 | a key is present exactly when some segment with `=` decodes to it; segments without `=` add nothing |
| Notifier.LastPairWins | python/notifier.py:24 | a key's value comes from its last segment |
| Notifier.UrlEncode | python/notifier.py:64-66 | the encoding is empty exactly when there are no pairs |
| Notifier.UrlEncodeRoundTrip | python/notifier.py:64 | parsing what `urlencode` writes gives back the dictionary that was encoded |
| Notifier.OutgoingTaskId | python/notifier.py:50-51 | the sent id is never empty; it is `NONE` exactly when no id, an empty id or `NONE` itself was given, and otherwise the given id |
| Notifier.ToastArguments | python/notifier.py:63-65 | the arguments parse back into exactly `task_id` (the sent id) and `source` |
| Notifier.ActivatedTaskId | python/notifier.py:56-58 | a task id is handed on exactly when `task_id` is present and is not `NONE`, and it is the parsed `task_id` value unchanged |
| Notifier.TaskIdRoundTrip | python/notifier.py:49-66 | activating the body or the button returns the task id sent, or none when it was missing, empty or `NONE` |
| Notifier.SendNotification | python/notifier.py:35-68 | without a toaster there is only a console message; the title and message are the texts; the body arguments are present exactly with a callback and encode the task id with source `body`; a button is present exactly with a callback and a non-empty label, carries that label, and encodes the task id with source `button_1` |
| Notifier.SendWithDefaultButton | python/notifier.py:33 | with a toaster and a callback, a call without a label gets the button "자세히 보기" carrying the button arguments |
| Notifier.ActivationHighlightsTask | python/notifier.py:48-68 | clicking the body and clicking the button both hand back the task id that was sent |
| Launcher.Classify | launcher.py:82-139 | `.url` first, then `.lnk`, then a command, all compared case-insensitively |
| Launcher.UrlOnLine | launcher.py:59-62 | the text after `URL=` in its original case, without surrounding quotes |
| Launcher.FirstIndexWhere | launcher.py:58-62 | the first accepted line, or none exactly when no line is accepted |
| Launcher.FirstUrlLine | launcher.py:57-65 | none exactly when no stripped line starts with `URL=` in any case; otherwise a value without surrounding quotes |
| Launcher.ScanLines | launcher.py:57-61 | the line loop stops at the first accepted line, and finds none exactly when no line is accepted |
| Launcher.ScanForUrl | launcher.py:57-65 | the loop returns the URL on the first accepted line, or none |
| Launcher.UrlFromFile | launcher.py:13-71 | read failures, including a file without a section header, give none; a parsed `[InternetShortcut] URL` wins, quote-stripped; otherwise the fallback scan; a found URL never starts or ends with `"` |
| Launcher.UrlFromFileScanningSectionless | launcher.py:45-62 | the corrected reading: a file without a section header goes to the fallback scan; every other outcome agrees with `UrlFromFile` |
| Launcher.UrlLineYields | launcher.py:57-61 | a line `URL=u` is accepted by the scan and yields `u`, when `u` has no surrounding whitespace or quotes |
| Launcher.SectionlessShortcutExample | launcher.py:45-62 | a section-less file holding only `URL=u` yields no URL as written, and `u` under the corrected reading |
| Launcher.LaunchUrl | launcher.py:87-119 | on Windows `startfile` is tried first, off Windows the browser |
| Launcher.ShellSucceeded | launcher.py:98 | a value of 33 or more is success; no value and the explained error codes 0, 2, 3 and 5 are failures |
| Launcher.LaunchProcess | launcher.py:73-173 | an empty command fails with no call; a shortcut with no URL fails with no call; `.lnk` fails off Windows; a Windows command succeeds exactly when `ShellExecuteW` returns more than 32; success always follows a call |
| Launcher.BrowserAttemptIsSuccess | launcher.py:107-119 | off Windows a shortcut's URL counts as launched unless the browser call raises, whatever it returns |
| Launcher.WindowsUrlLaunch | launcher.py:87-106 | on Windows a shortcut's URL is launched exactly when `startfile` works or the `ShellExecuteW` retry returns more than 32 |
| HomeworkHelper.Basename | homework_helper.py:429 | the file name has no separator |
| HomeworkHelper.Stem | homework_helper.py:430 | a prefix of the name, cut at the last `.` exactly when something other than dots precedes it; when nothing is cut, every `.` in the name is preceded by dots only |
| HomeworkHelper.StemEmptyIffNameEmpty | homework_helper.py:430 | only an empty file name has an empty stem |
| HomeworkHelper.NameForNewProcess | homework_helper.py:426-430 | a non-blank name is kept stripped; a blank one with a path becomes the path's stem, or "새 프로세스" when the path has no file name; it stays empty without a path |
| HomeworkHelper.NewProcessFromDialog | homework_helper.py:432-440 | a fresh id, the derived name, the dialog's other fields, no play recorded |
| HomeworkHelper.EditedProcess | homework_helper.py:355-366 | keeps the id and last-played time; a blank name falls back to the old one; every other field comes from the dialog |
| HomeworkHelper.HandleAdd | homework_helper.py:420-443 | nothing changes unless the dialog is accepted with data; then the built record is appended and the list saved exactly when its id is new; ids stay unique |
| HomeworkHelper.HandleEdit | homework_helper.py:344-371 | refreshes exactly when the id is found and the dialog returns data; then only that entry is replaced by the edited record and the list saved |
| HomeworkHelper.HandleDelete | homework_helper.py:373-393 | the entry is removed, the list saved and the table refreshed exactly when the id is found and the user answers Yes; otherwise nothing changes |

## Left out

- The status classifier, the deadline and notification scheduler and running-process detection. They live in `scheduler.py` and `process_monitor.py`, which are not part of this model.
- JSON reading and writing. A file is an abstract outcome: missing, not valid JSON, or decoded to dictionaries. A save is an entry in a ghost log. Write errors (`IOError`) are not modelled, so every save is recorded.
- DataManagement.LoadGlobalSettings and DataManagement.LoadManagedProcesses: a file that exists but cannot be opened (`PermissionError`, `data_manager.py:26` and `:46`) or whose bytes are not UTF-8 (`UnicodeDecodeError` from `json.load`, `:27` and `:47`) is not caught by the loaders, which catch only `json.JSONDecodeError` and `TypeError`. The exception escapes `DataManager.__init__`. These raising cases are not modelled: `FileRead` has no outcome for them.
- DataModels.ProcessFromDict: dictionary values are typed, and a value of the wrong JSON type is refused. Python's `cls(**data)` accepts any value and fails only on an unknown or missing keyword.
- DataModels.SettingsFromDict: the same typed reading. Also, Python adds the missing `run_on_startup` to the caller's dictionary in place; here a new dictionary is built.
- The `uuid4` id is the parameter `freshId`. The store's loader draws `freshId(i)` for entry `i`.
- Floating-point rounding, time zones and the `fromtimestamp` failure path that shows "계산 오류". Timestamps are exact reals. Progress-bar styling and the `%.1f` formatting of the percentage are not modelled.
- WidgetSystem.CalculateProgress: the remaining-time label is a datatype holding the numbers, not the formatted Korean text.
- Qt: windows, tables, dialogs, animations, timers, the tray icon and the click handlers. The screen size is a parameter. The `position_changed` signal is a log of the positions announced.
- `python/widget_system.py:18` imports `pyqtSignal` from PySide6, and `python/widget_system.py:646` passes an `original_launch_path` that the constructor does not accept. Neither defect is represented. New records follow the add rule in `homework_helper.py`.
- Operating-system calls: `os.startfile`, `ShellExecuteW`, `webbrowser.open`, `shlex.split` with `subprocess.Popen`, and toast delivery. Their outcomes are inputs, and command-line splitting is not modelled. `configparser` with its three encoding attempts is one abstract read outcome plus the value it found, if any.
- The console messages, including the explanations printed for `ShellExecuteW` error codes 0, 2, 3, 5 and 1223. The explanation for 1223 (`launcher.py:156`) can never print: 1223 is greater than 32, so the test at `launcher.py:146` already counted it as success.
- Text.LowerChar and Text.UpperChar cover only the characters that lower-case to ASCII (the ASCII capitals and the Kelvin sign) and the ASCII lower-case letters. Python's full Unicode case mapping only matters for the ASCII suffixes and prefixes compared here.
- Lone surrogates: Dafny characters are Unicode scalar values, so texts with lone surrogates (which Python allows) are not modelled.
- HomeworkHelper.Basename: models Windows paths (`ntpath`), the platform the tool targets. On other systems Python uses `posixpath`, where only `/` separates and there are no drives.
- HomeworkHelper.Basename: UNC paths (`\\server\share`) are not modelled. A path whose first character is a separator and whose second is `:` is treated as Python 3.12 does, without a drive.
- `handle_launch_button_in_row`, the context-menu wiring and table population in `homework_helper.py`.

## Findings

| source | as written | input that shows it | evidently intended | confidence | as-written member | corrected member |
|---|---|---|---|---|---|---|
| python/widget_system.py:238-243 | in the top-right quadrant the handle goes to TOP when the right edge is closer than the top, and to RIGHT otherwise | a 1000×1000 screen with the handle centred at (990, 400): 10 px from the right edge, 400 px from the top, and it snaps to TOP | snap to the nearest edge, as the method's docstring says and as the other three quadrants do | not executed | WidgetSystem.SnapEdgeTopRightExample | WidgetSystem.NearestEdge |
| launcher.py:45-47 | `configparser` raises `MissingSectionHeaderError` for a shortcut without a `[section]` line; the catch-all for read errors returns `None`, so the fallback scan at lines 54-62, meant for such files (comment at line 55), never sees them | a `.url` file holding the single line `URL=x` (any `x` without surrounding spaces or quotes) gives no URL | a file without a section header is scanned for a `URL=` line | not executed | Launcher.SectionlessShortcutExample | Launcher.UrlFromFileScanningSectionless |

`WidgetHandle.SnapToEdge` follows the code as written and uses `SnapEdge`;
likewise `LaunchProcess` uses `UrlFromFile`, the code as written.
`SnapEdgeTopRightPicksFarther` proves that the code picks the farther edge
throughout the top-right quadrant. `NearestEdgeIsNearest` proves that the
corrected rule picks an edge at least as close as any other.
