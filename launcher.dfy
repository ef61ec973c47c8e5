/**
 * Launching a managed process: how a launch command is classified by its
 * suffix, how the URL of an Internet shortcut (`.url` file) is found, and which
 * operating-system call decides success. The operating-system calls are not
 * modelled; their outcomes are inputs, and the launch reports which calls it
 * made.
 */
module Launcher {
  import opened Wrappers
  import opened Text

  // ---------------------------------------------------------------- classification

  datatype CommandKind = UrlShortcut | ShellLink | Executable

  /** The branch `launch_process` takes: `.url` first, then `.lnk`, compared case-insensitively. */
  function Classify(command: string): (k: CommandKind)
    ensures k == UrlShortcut <==> EndsWithIgnoreCase(command, ".url")
    ensures k == ShellLink <==> !EndsWithIgnoreCase(command, ".url") && EndsWithIgnoreCase(command, ".lnk")
    ensures k == Executable <==> !EndsWithIgnoreCase(command, ".url") && !EndsWithIgnoreCase(command, ".lnk")
  {
    if EndsWithIgnoreCase(command, ".url") then UrlShortcut
    else if EndsWithIgnoreCase(command, ".lnk") then ShellLink
    else Executable
  }

  // ---------------------------------------------------------------- the URL of a shortcut

  /** A line of a shortcut file that the fallback scan accepts: once stripped, it starts with `URL=` in any case. */
  predicate IsUrlLine(line: string) {
    StartsWithIgnoreCase(Strip(line), "URL=")
  }

  /** The URL on an accepted line: the text after `URL=`, in its original case, without surrounding double quotes. */
  function UrlOnLine(line: string): (url: string)
    requires IsUrlLine(line)
    ensures url == StripQuotes(Strip(line)[4..])
    ensures url != [] ==> url[0] != '"' && url[|url| - 1] != '"'
  {
    StripQuotes(Strip(line)[4..])
  }

  /** The index of the first line that `accept` holds of, if any. */
  function FirstIndexWhere(lines: seq<string>, accept: string -> bool): (r: Option<nat>)
    ensures r.None? <==> forall i :: 0 <= i < |lines| ==> !accept(lines[i])
    ensures r.Some? ==> r.value < |lines| && accept(lines[r.value])
    ensures r.Some? ==> forall j :: 0 <= j < r.value ==> !accept(lines[j])
  {
    if lines == [] then None
    else if accept(lines[0]) then Some(0)
    else
      var r := FirstIndexWhere(lines[1..], accept);
      assert forall i :: 1 <= i < |lines| ==> lines[1..][i - 1] == lines[i];
      if r.Some? then Some(r.value + 1) else None
  }

  lemma FirstIndexWhereIs(lines: seq<string>, accept: string -> bool, i: nat)
    requires i < |lines| && accept(lines[i])
    requires forall j :: 0 <= j < i ==> !accept(lines[j])
    ensures FirstIndexWhere(lines, accept) == Some(i)
  {
    var r := FirstIndexWhere(lines, accept);
    assert r.Some?;
    assert !(r.value < i) && !(r.value > i);
  }

  /** The fallback scan's answer: the URL on the first accepted line, if any. */
  function FirstUrlLine(lines: seq<string>): (r: Option<string>)
    ensures r.None? <==> forall i :: 0 <= i < |lines| ==> !IsUrlLine(lines[i])
    ensures r.Some? && r.value != [] ==> r.value[0] != '"' && r.value[|r.value| - 1] != '"'
  {
    var i := FirstIndexWhere(lines, IsUrlLine);
    if i.Some? then Some(UrlOnLine(lines[i.value])) else None
  }

  /** A scan of `lines` in order that stops at the first line `accept` holds of. */
  method ScanLines(lines: seq<string>, accept: string -> bool) returns (found: Option<nat>)
    ensures found == FirstIndexWhere(lines, accept)
  {
    for i := 0 to |lines|
      invariant forall j :: 0 <= j < i ==> !accept(lines[j])
    {
      if accept(lines[i]) {
        FirstIndexWhereIs(lines, accept, i);
        return Some(i);
      }
    }
    return None;
  }

  /** The `for line in f` loop of `_get_url_from_file`, returning the URL on the first accepted line. */
  method ScanForUrl(lines: seq<string>) returns (url: Option<string>)
    ensures url == FirstUrlLine(lines)
  {
    var found := ScanLines(lines, IsUrlLine);
    if found.Some? {
      return Some(UrlOnLine(lines[found.value]));
    }
    return None;
  }

  /** How `configparser` fared with the shortcut file, after its encoding retries. */
  datatype IniRead =
    | Unreadable     // every read attempt parsed no file
    | ReadRaised     // a read raised something other than a decoding error
    | MissingSection // a read raised `MissingSectionHeaderError`: the file has no `[section]` line
    | DecodeFailed   // a read raised a decoding error; the fallback scan follows
    | Parsed

  /**
   * What the file system and `configparser` report for a shortcut: the read
   * outcome, the `[InternetShortcut] URL` value if the parser holds one, and
   * the file's lines for the fallback scan (`None` when opening it raises).
   */
  datatype ShortcutFile = ShortcutFile(read: IniRead, iniUrl: Option<string>, lines: Option<seq<string>>)

  /**
   * The read outcomes after which `_get_url_from_file` returns `None` at once.
   * `MissingSectionHeaderError` is not a decoding error, so the catch-all for
   * read errors takes it too.
   */
  predicate AbandonsFile(read: IniRead) {
    read == Unreadable || read == ReadRaised || read == MissingSection
  }

  /** `_get_url_from_file`. */
  function UrlFromFile(f: ShortcutFile): (r: Option<string>)
    ensures AbandonsFile(f.read) ==> r.None?
    ensures !AbandonsFile(f.read) && f.iniUrl.Some? ==> r == Some(StripQuotes(f.iniUrl.value))
    ensures !AbandonsFile(f.read) && f.iniUrl.None? ==>
      r == (if f.lines.Some? then FirstUrlLine(f.lines.value) else None)
    ensures r.Some? && r.value != [] ==> r.value[0] != '"' && r.value[|r.value| - 1] != '"'
  {
    if AbandonsFile(f.read) then None
    else if f.iniUrl.Some? then
      Some(StripQuotes(f.iniUrl.value))
    else if f.lines.None? then None
    else FirstUrlLine(f.lines.value)
  }

  /**
   * The evidently intended reading: a shortcut without a section header, such
   * as a bare `URL=...` line, goes to the fallback scan that was written for it.
   * Every other outcome is handled as `UrlFromFile` handles it.
   */
  function UrlFromFileScanningSectionless(f: ShortcutFile): (r: Option<string>)
    ensures f.read == MissingSection ==> r == (if f.lines.Some? then FirstUrlLine(f.lines.value) else None)
    ensures f.read != MissingSection ==> r == UrlFromFile(f)
  {
    if f.read == MissingSection then
      if f.lines.Some? then FirstUrlLine(f.lines.value) else None
    else UrlFromFile(f)
  }

  /** The fallback scan finds `x` in the one-line file `URL=x`. */
  lemma UrlKeyPrefix(u: string)
    ensures StartsWithIgnoreCase("URL=" + u, "URL=")
  {
    var line := "URL=" + u;
    assert line[0] == 'U' && line[1] == 'R' && line[2] == 'L' && line[3] == '=';
  }

  lemma UrlLineUnstripped(u: string)
    requires u != [] && !IsSpace(u[|u| - 1])
    ensures Strip("URL=" + u) == "URL=" + u
  {
    var line := "URL=" + u;
    assert line[0] == 'U' && line[|line| - 1] == u[|u| - 1];
    TrimKeepsKeptEnds(line, IsSpace);
  }

  /** A line `URL=u` is accepted and yields `u`, when `u` does not end with whitespace and neither starts nor ends with a quote. */
  lemma UrlLineYields(u: string)
    requires u != [] && !IsSpace(u[|u| - 1]) && !IsQuote(u[0]) && !IsQuote(u[|u| - 1])
    ensures IsUrlLine("URL=" + u) && UrlOnLine("URL=" + u) == u
  {
    var line := "URL=" + u;
    assert line[4..] == u;
    TrimKeepsKeptEnds(u, IsQuote);
    UrlKeyPrefix(u);
    UrlLineUnstripped(u);
  }

  lemma SingleUrlLine(line: string)
    requires IsUrlLine(line)
    ensures FirstUrlLine([line]) == Some(UrlOnLine(line))
  {
    FirstIndexWhereIs([line], IsUrlLine, 0);
  }

  /**
   * A shortcut holding the single line `URL=u`, with no section header: the
   * scan written for it would find `u`, yet the code as written returns none.
   */
  lemma SectionlessShortcutExample(u: string)
    requires u != [] && !IsSpace(u[|u| - 1]) && !IsQuote(u[0]) && !IsQuote(u[|u| - 1])
    ensures var f := ShortcutFile(MissingSection, None, Some(["URL=" + u]));
      && UrlFromFile(f) == None
      && UrlFromFileScanningSectionless(f) == Some(u)
  {
    var line := "URL=" + u;
    UrlLineYields(u);
    SingleUrlLine(line);
  }

  // ---------------------------------------------------------------- launching

  datatype Platform = Windows | Posix

  /** The operating-system calls a launch can make, in the order it makes them. */
  datatype ForeignCall =
    | StartFile(target: string)
    | ShellExecute(verb: string, target: string)
    | BrowserOpen(url: string)
    | Spawn(command: string)

  /**
   * The outcomes of the operating-system calls. `shellExecuteResult` is `None`
   * when the call raises; `browserOpened` is `None` when `webbrowser.open`
   * raises; `spawnOk` is false when splitting the command or starting it raises.
   */
  datatype Environment = Environment(
    platform: Platform,
    shortcut: ShortcutFile,
    startFileOk: bool,
    shellExecuteResult: Option<int>,
    browserOpened: Option<bool>,
    spawnOk: bool)

  datatype LaunchOutcome = LaunchOutcome(ok: bool, calls: seq<ForeignCall>)

  /**
   * `ShellExecuteW` reports success with a value greater than 32; the error
   * codes the launcher explains (0, 2, 3 and 5) are failures, and a missing
   * value (the call raised) is one too.
   */
  predicate ShellSucceeded(result: Option<int>)
    ensures result.None? ==> !ShellSucceeded(result)
    ensures result.Some? && (result.value == 0 || result.value == 2 || result.value == 3 || result.value == 5) ==> !ShellSucceeded(result)
    ensures result.Some? && result.value >= 33 ==> ShellSucceeded(result)
    ensures result.Some? && result.value <= 32 ==> !ShellSucceeded(result)
  {
    result.Some? && result.value > 32
  }

  /** The `.url` branch, once the URL has been read. */
  function LaunchUrl(url: string, env: Environment): (r: LaunchOutcome)
    requires url != []
    ensures r.calls != [] && r.calls[0] == (if env.platform == Windows then StartFile(url) else BrowserOpen(url))
  {
    if env.platform == Windows then
      if env.startFileOk then LaunchOutcome(true, [StartFile(url)])
      else LaunchOutcome(ShellSucceeded(env.shellExecuteResult), [StartFile(url), ShellExecute("open", url)])
    else LaunchOutcome(env.browserOpened.Some?, [BrowserOpen(url)])
  }

  /** `launch_process`. */
  function LaunchProcess(command: string, env: Environment): (r: LaunchOutcome)
    ensures command == [] ==> r == LaunchOutcome(false, [])
    ensures r.ok ==> r.calls != []
    ensures command != [] && Classify(command) == UrlShortcut ==>
      var url := UrlFromFile(env.shortcut);
      if url.None? || url.value == [] then r == LaunchOutcome(false, []) else r == LaunchUrl(url.value, env)
    ensures command != [] && Classify(command) == ShellLink ==>
      r == (if env.platform == Windows then LaunchOutcome(env.startFileOk, [StartFile(command)]) else LaunchOutcome(false, []))
    ensures command != [] && Classify(command) == Executable ==>
      r == (if env.platform == Windows then LaunchOutcome(ShellSucceeded(env.shellExecuteResult), [ShellExecute("runas", command)])
            else LaunchOutcome(env.spawnOk, [Spawn(command)]))
  {
    if command == [] then LaunchOutcome(false, [])
    else match Classify(command)
      case UrlShortcut =>
        var url := UrlFromFile(env.shortcut);
        if url.None? || url.value == [] then LaunchOutcome(false, []) else LaunchUrl(url.value, env)
      case ShellLink =>
        if env.platform == Windows then LaunchOutcome(env.startFileOk, [StartFile(command)]) else LaunchOutcome(false, [])
      case Executable =>
        if env.platform == Windows then LaunchOutcome(ShellSucceeded(env.shellExecuteResult), [ShellExecute("runas", command)])
        else LaunchOutcome(env.spawnOk, [Spawn(command)])
  }

  /** Away from Windows, an attempt to open a shortcut's URL in the browser counts as success unless it raises. */
  lemma BrowserAttemptIsSuccess(command: string, env: Environment)
    requires Classify(command) == UrlShortcut && env.platform == Posix
    requires UrlFromFile(env.shortcut).Some? && UrlFromFile(env.shortcut).value != []
    ensures LaunchProcess(command, env).ok <==> env.browserOpened.Some?
  {
    assert command != [];
    var url := UrlFromFile(env.shortcut);
    assert LaunchProcess(command, env) == LaunchUrl(url.value, env);
  }

  /** On Windows, a shortcut's URL is opened by `startfile`, and only when that raises does `ShellExecuteW` decide. */
  lemma WindowsUrlLaunch(command: string, env: Environment)
    requires Classify(command) == UrlShortcut && env.platform == Windows
    requires UrlFromFile(env.shortcut).Some? && UrlFromFile(env.shortcut).value != []
    ensures LaunchProcess(command, env).ok <==> env.startFileOk || ShellSucceeded(env.shellExecuteResult)
  {
    assert command != [];
    var url := UrlFromFile(env.shortcut);
    assert LaunchProcess(command, env) == LaunchUrl(url.value, env);
  }
}
