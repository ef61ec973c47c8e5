/**
 * Toast notifications: the argument string attached to a toast and its button,
 * and how that string is parsed back when the toast is activated, so that the
 * main window learns which task to highlight. Showing the toast is done by the
 * operating system and is left out; what is modelled is the request and the
 * argument round trip.
 */
module Notifier {
  import opened Wrappers
  import opened UrlEncoding

  // ---------------------------------------------------------------- splitting

  /** `s.split(sep)`: the pieces between separators, empty pieces included. */
  function Split(s: string, sep: char): (parts: seq<string>)
    ensures |parts| >= 1
    ensures forall i :: 0 <= i < |parts| ==> sep !in parts[i]
  {
    if s == [] then [[]]
    else if s[0] == sep then [[]] + Split(s[1..], sep)
    else
      var rest := Split(s[1..], sep);
      [[s[0]] + rest[0]] + rest[1..]
  }

  /** `sep.join(parts)`. */
  function Join(parts: seq<string>, sep: char): string
    requires |parts| >= 1
  {
    if |parts| == 1 then parts[0] else parts[0] + [sep] + Join(parts[1..], sep)
  }

  lemma {:induction false} SplitWithoutSeparator(a: string, sep: char)
    requires sep !in a
    ensures Split(a, sep) == [a]
  {
    if a != [] {
      SplitWithoutSeparator(a[1..], sep);
      assert [a[0]] + a[1..] == a;
    }
  }

  lemma {:induction false} SplitAfterFirstSeparator(a: string, b: string, sep: char)
    requires sep !in a
    ensures Split(a + [sep] + b, sep) == [a] + Split(b, sep)
  {
    var s := a + [sep] + b;
    if a == [] {
      assert s[1..] == b;
    } else {
      assert s[1..] == a[1..] + [sep] + b;
      SplitAfterFirstSeparator(a[1..], b, sep);
      assert [a[0]] + a[1..] == a;
    }
  }

  /** Splitting a join of separator-free pieces gives the pieces back. */
  lemma {:induction false} SplitJoin(parts: seq<string>, sep: char)
    requires |parts| >= 1 && forall i :: 0 <= i < |parts| ==> sep !in parts[i]
    ensures Split(Join(parts, sep), sep) == parts
  {
    if |parts| == 1 {
      SplitWithoutSeparator(parts[0], sep);
    } else {
      SplitJoin(parts[1..], sep);
      SplitAfterFirstSeparator(parts[0], Join(parts[1..], sep), sep);
    }
  }

  /** The index of the first `c` in `s`. */
  function IndexOf(s: string, c: char): (i: nat)
    requires c in s
    ensures i < |s| && s[i] == c && c !in s[..i]
  {
    if s[0] == c then 0
    else
      var j := IndexOf(s[1..], c);
      assert s[..j + 1] == [s[0]] + s[1..][..j];
      1 + j
  }

  /** `pair.split('=', 1)` for a pair that holds `=`: the key before the first `=`, the value after it. */
  function SplitAtFirst(pair: string, c: char): (kv: (string, string))
    requires c in pair
    ensures pair == kv.0 + [c] + kv.1 && c !in kv.0
  {
    var i := IndexOf(pair, c);
    (pair[..i], pair[i + 1..])
  }

  // ---------------------------------------------------------------- parsing

  function DecodedKey(pair: string): string
    requires '=' in pair
  {
    UnquotePlus(SplitAtFirst(pair, '=').0)
  }

  function DecodedValue(pair: string): string
    requires '=' in pair
  {
    UnquotePlus(SplitAtFirst(pair, '=').1)
  }

  /** The dictionary the parsing loop builds from `pairs`, processed in order. */
  function ParsePairs(pairs: seq<string>): map<string, string>
  {
    if pairs == [] then map[]
    else
      var params := ParsePairs(pairs[..|pairs| - 1]);
      var pair := pairs[|pairs| - 1];
      if '=' in pair then params[DecodedKey(pair) := DecodedValue(pair)] else params
  }

  /** What `_parse_arguments_string` returns for an argument string. */
  function ParsedArguments(argString: Option<string>): map<string, string> {
    if argString.None? || argString.value == [] then map[] else ParsePairs(Split(argString.value, '&'))
  }

  /** `_parse_arguments_string`: split at `&`, split each pair at its first `=`, decode both halves. */
  method ParseArgumentsString(argString: Option<string>) returns (params: map<string, string>)
    ensures params == ParsedArguments(argString)
    ensures argString.None? || argString.value == [] ==> params == map[]
  {
    params := map[];
    if argString.None? || argString.value == [] {
      return;
    }
    var pairs := Split(argString.value, '&');
    for i := 0 to |pairs|
      invariant params == ParsePairs(pairs[..i])
    {
      var pair := pairs[i];
      assert pairs[..i + 1][..i] == pairs[..i];
      if '=' in pair {
        var kv := SplitAtFirst(pair, '=');
        params := params[UnquotePlus(kv.0) := UnquotePlus(kv.1)];
      }
    }
    assert pairs[..|pairs|] == pairs;
  }

  /** A key is present exactly when some segment holding `=` decodes to it. */
  lemma {:induction false} ParsedKeys(pairs: seq<string>, key: string)
    ensures key in ParsePairs(pairs) <==>
      exists i :: 0 <= i < |pairs| && '=' in pairs[i] && DecodedKey(pairs[i]) == key
  {
    if pairs != [] {
      var init := pairs[..|pairs| - 1];
      ParsedKeys(init, key);
      assert forall i :: 0 <= i < |init| ==> init[i] == pairs[i];
      if key in ParsePairs(init) {
        var i :| 0 <= i < |init| && '=' in init[i] && DecodedKey(init[i]) == key;
        assert pairs[i] == init[i];
      }
    }
  }

  /** The value of a key comes from the last segment that decodes to that key: later pairs overwrite earlier ones. */
  lemma {:induction false} LastPairWins(pairs: seq<string>, i: int)
    requires 0 <= i < |pairs| && '=' in pairs[i]
    requires forall j :: i < j < |pairs| && '=' in pairs[j] ==> DecodedKey(pairs[j]) != DecodedKey(pairs[i])
    ensures DecodedKey(pairs[i]) in ParsePairs(pairs)
    ensures ParsePairs(pairs)[DecodedKey(pairs[i])] == DecodedValue(pairs[i])
  {
    if i < |pairs| - 1 {
      var init := pairs[..|pairs| - 1];
      assert init[i] == pairs[i];
      assert forall j :: i < j < |init| ==> init[j] == pairs[j];
      LastPairWins(init, i);
    }
  }

  // ---------------------------------------------------------------- encoding

  function EncodePair(kv: (string, string)): string {
    QuotePlus(kv.0) + "=" + QuotePlus(kv.1)
  }

  function EncodedPairs(pairs: seq<(string, string)>): (parts: seq<string>)
    ensures |parts| == |pairs|
    ensures forall i :: 0 <= i < |pairs| ==> parts[i] == EncodePair(pairs[i])
  {
    if pairs == [] then [] else [EncodePair(pairs[0])] + EncodedPairs(pairs[1..])
  }

  /** `urllib.parse.urlencode(d)` for a dictionary of strings, given in insertion order. */
  function UrlEncode(pairs: seq<(string, string)>): (r: string)
    ensures r == [] <==> pairs == []
  {
    if pairs == [] then []
    else
      var parts := EncodedPairs(pairs);
      DecodeEncodedPair(pairs[0]);
      assert |parts| > 1 ==> |Join(parts, '&')| >= |parts[0]|;
      Join(parts, '&')
  }

  /** A dictionary built by inserting `pairs` in order. */
  function PairsToMap(pairs: seq<(string, string)>): map<string, string> {
    if pairs == [] then map[]
    else PairsToMap(pairs[..|pairs| - 1])[pairs[|pairs| - 1].0 := pairs[|pairs| - 1].1]
  }

  /** One encoded pair parses back into its key and value. */
  lemma DecodeEncodedPair(kv: (string, string))
    ensures '=' in EncodePair(kv)
    ensures DecodedKey(EncodePair(kv)) == kv.0 && DecodedValue(EncodePair(kv)) == kv.1
  {
    var k, v := QuotePlus(kv.0), QuotePlus(kv.1);
    var pair := EncodePair(kv);
    QuotePlusHasNoDelimiters(kv.0);
    assert pair[|k|] == '=';
    var i := IndexOf(pair, '=');
    assert forall j :: 0 <= j < |k| ==> pair[j] == k[j];
    assert forall j :: 0 <= j < i ==> pair[..i][j] == pair[j];
    assert i == |k|;
    assert pair[..i] == k;
    assert pair[i + 1..] == v;
    assert SplitAtFirst(pair, '=') == (k, v);
    QuoteRoundTrip(kv.0);
    QuoteRoundTrip(kv.1);
  }

  lemma {:induction false} ParseEncodedPairs(pairs: seq<(string, string)>)
    ensures ParsePairs(EncodedPairs(pairs)) == PairsToMap(pairs)
  {
    if pairs != [] {
      var init := pairs[..|pairs| - 1];
      ParseEncodedPairs(init);
      var parts := EncodedPairs(pairs);
      assert parts[..|parts| - 1] == EncodedPairs(init);
      DecodeEncodedPair(pairs[|pairs| - 1]);
    }
  }

  /** Parsing what `urlencode` wrote gives back the dictionary that was encoded. */
  lemma UrlEncodeRoundTrip(pairs: seq<(string, string)>)
    ensures ParsedArguments(Some(UrlEncode(pairs))) == PairsToMap(pairs)
  {
    if pairs != [] {
      var parts := EncodedPairs(pairs);
      forall i | 0 <= i < |parts| ensures '&' !in parts[i] {
        QuotePlusHasNoDelimiters(pairs[i].0);
        QuotePlusHasNoDelimiters(pairs[i].1);
        assert parts[i] == QuotePlus(pairs[i].0) + "=" + QuotePlus(pairs[i].1);
      }
      SplitJoin(parts, '&');
      ParseEncodedPairs(pairs);
    }
  }

  // ---------------------------------------------------------------- the task id

  lemma TwoPairsMap(pairs: seq<(string, string)>)
    requires |pairs| == 2
    ensures PairsToMap(pairs) == map[pairs[0].0 := pairs[0].1, pairs[1].0 := pairs[1].1]
  {
    var init := pairs[..1];
    assert init[..0] == [] && init[0] == pairs[0];
    assert PairsToMap(init) == map[pairs[0].0 := pairs[0].1];
  }

  /** The `task_id` sent with a toast: the task to highlight, or `'NONE'` when there is none (or it is empty). */
  function OutgoingTaskId(taskId: Option<string>): (r: string)
    ensures r != []
    ensures r == "NONE" <==> taskId.None? || taskId.value == [] || taskId.value == "NONE"
    ensures r != "NONE" ==> taskId == Some(r)
  {
    if taskId.Some? && taskId.value != [] then taskId.value else "NONE"
  }

  /** The arguments of a toast's body (`source` = "body") or of its button (`source` = "button_1"). */
  function ToastArguments(taskId: Option<string>, source: string): (r: string)
    ensures ParsedArguments(Some(r)) == map["task_id" := OutgoingTaskId(taskId), "source" := source]
  {
    var pairs := [("task_id", OutgoingTaskId(taskId)), ("source", source)];
    UrlEncodeRoundTrip(pairs);
    TwoPairsMap(pairs);
    UrlEncode(pairs)
  }

  /** The task id handed to the main window when a toast is activated with `received` as its arguments. */
  function ActivatedTaskId(received: Option<string>): (r: Option<string>)
    ensures r.Some? ==> r.value != "NONE"
    ensures r.Some? <==> "task_id" in ParsedArguments(received) && ParsedArguments(received)["task_id"] != "NONE"
    ensures r.Some? ==> r.value == ParsedArguments(received)["task_id"]
  {
    var parsed := ParsedArguments(received);
    if "task_id" !in parsed || parsed["task_id"] == "NONE" then None else Some(parsed["task_id"])
  }

  /**
   * Activating a toast hands back the task id it was sent with. A task id that
   * is empty or is itself the text "NONE" comes back as no task.
   */
  lemma TaskIdRoundTrip(taskId: Option<string>, source: string)
    ensures ActivatedTaskId(Some(ToastArguments(taskId, source))) ==
      if taskId.Some? && taskId.value != [] && taskId.value != "NONE" then taskId else None
  {
  }

  // ---------------------------------------------------------------- the request

  datatype ToastButton = ToastButton(content: string, arguments: string)

  /** What `send_notification` hands to the operating system, or its console fallback. */
  datatype Delivery =
    | ConsoleFallback(title: string, message: string)
    | Toast(textFields: seq<string>, launchArgs: Option<string>, button: Option<ToastButton>)

  const DefaultButtonText: string := "자세히 보기"

  /**
   * `send_notification`. Without a toaster only a console message is printed;
   * the activation arguments and the button are attached only when the main
   * window registered a callback, and the button only for a non-empty label.
   */
  function SendNotification(toasterAvailable: bool, hasCallback: bool, title: string, message: string,
                            taskId: Option<string>, buttonText: Option<string>): (d: Delivery)
    ensures !toasterAvailable <==> d.ConsoleFallback?
    ensures d.Toast? ==> d.textFields == [title, message]
    ensures d.Toast? ==> (d.launchArgs.Some? <==> hasCallback)
    ensures d.Toast? ==> (d.button.Some? <==> hasCallback && buttonText.Some? && buttonText.value != [])
    ensures d.Toast? && d.button.Some? ==> d.button.value.content == buttonText.value
    ensures d.Toast? && d.launchArgs.Some? ==> d.launchArgs.value == ToastArguments(taskId, "body")
    ensures d.Toast? && d.button.Some? ==> d.button.value.arguments == ToastArguments(taskId, "button_1")
  {
    if !toasterAvailable then ConsoleFallback(title, message)
    else if !hasCallback then Toast([title, message], None, None)
    else
      var button := if buttonText.Some? && buttonText.value != [] then
        Some(ToastButton(buttonText.value, ToastArguments(taskId, "button_1"))) else None;
      Toast([title, message], Some(ToastArguments(taskId, "body")), button)
  }

  /**
   * `send_notification` called without a `button_text`, as both launch
   * notifications of the main window do: the button carries the default label.
   */
  function SendWithDefaultButton(toasterAvailable: bool, hasCallback: bool, title: string, message: string,
                                 taskId: Option<string>): (d: Delivery)
    ensures toasterAvailable && hasCallback ==> d.Toast? && d.button == Some(ToastButton(DefaultButtonText, ToastArguments(taskId, "button_1")))
  {
    SendNotification(toasterAvailable, hasCallback, title, message, taskId, Some(DefaultButtonText))
  }

  /** Whether the toast's body or its button is clicked, the callback receives the task id that was sent. */
  lemma ActivationHighlightsTask(title: string, message: string, taskId: Option<string>, buttonText: Option<string>)
    ensures var d := SendNotification(true, true, title, message, taskId, buttonText);
      var expected := if taskId.Some? && taskId.value != [] && taskId.value != "NONE" then taskId else None;
      && ActivatedTaskId(d.launchArgs) == expected
      && (d.button.Some? ==> ActivatedTaskId(Some(d.button.value.arguments)) == expected)
  {
    TaskIdRoundTrip(taskId, "body");
    TaskIdRoundTrip(taskId, "button_1");
  }
}
