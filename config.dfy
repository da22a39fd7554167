/**
 * Resolving the API key (`get_api_key` in daemon.py and in check_tasks.py): the
 * `PUSH_API_KEY` environment variable wins when it is non-empty; otherwise the lines
 * of the config file are scanned for `export PUSH_API_KEY=...` and the value is
 * unquoted. The two scripts differ in what they do with an empty value.
 */
module Config {
  import opened Wrappers
  import opened Strings

  const KeyPrefix: string := "export PUSH_API_KEY="

  /** The config file as the scripts see it: absent, unreadable, or its lines (`splitlines()`). */
  datatype ConfigFile = Missing | Unreadable | Lines(lines: seq<string>)

  /** The message of the ValueError check_tasks.py raises when no key is found. */
  const NotConfiguredMessage: string :=
    "PUSH_API_KEY not configured.\nRun: /push-todo connect\nOr manually add to ~/.config/push/config:\n  export PUSH_API_KEY=\"your-key-here\""

  /** A line that (after stripping) starts with the export statement. */
  predicate IsKeyLine(line: string) {
    StartsWith(Strip(line), KeyPrefix)
  }

  /** Python's `s.split("=", 1)[1]`: everything after the first `=`. */
  function AfterFirstEquals(s: string): (r: Option<string>)
    ensures r.Some? <==> '=' in s
    ensures r.Some? ==> exists i :: 0 <= i < |s| && s[i] == '=' && '=' !in s[..i] && r.value == s[i + 1..]
  {
    match IndexOf(s, '=')
    case None => None
    case Some(i) => Some(s[i + 1..])
  }

  /** For an export line the first `=` is the one that ends the prefix. */
  lemma AfterPrefix(s: string)
    requires StartsWith(s, KeyPrefix)
    ensures AfterFirstEquals(s) == Some(s[|KeyPrefix|..])
  {
    var k := |KeyPrefix| - 1;
    assert s[..|KeyPrefix|] == KeyPrefix;
    assert s[k] == '=';
    assert s[..k] == KeyPrefix[..k];
    assert '=' !in KeyPrefix[..k];
    IndexOfFirst(s, '=', k);
  }

  /** The key on an export line: the text after `=`, stripped of blanks, then of `"`, then of `'`. */
  function KeyValue(line: string): string
    requires IsKeyLine(line)
  {
    var value := Strip(Strip(line)[|KeyPrefix|..]);
    StripChars(StripChars(value, {'"'}), {'\''})
  }

  /** Index of the first of `lines` that satisfies `p`: the line a `for ... break` scan stops at. */
  function FirstWhere(lines: seq<string>, p: string -> bool): (r: Option<nat>)
    ensures r.Some? ==> r.value < |lines| && p(lines[r.value])
    ensures r.Some? ==> forall j :: 0 <= j < r.value ==> !p(lines[j])
    ensures r.None? ==> forall j :: 0 <= j < |lines| ==> !p(lines[j])
    decreases |lines|
  {
    if lines == [] then None
    else if p(lines[0]) then Some(0)
    else match FirstWhere(lines[1..], p)
      case None => None
      case Some(k) => Some(k + 1)
  }

  /** Index of the first export line (the line daemon.py stops at). */
  function FirstKeyLine(lines: seq<string>): (r: Option<nat>)
    ensures r.Some? ==> r.value < |lines| && IsKeyLine(lines[r.value])
    ensures r.Some? ==> forall j :: 0 <= j < r.value ==> !IsKeyLine(lines[j])
    ensures r.None? ==> forall j :: 0 <= j < |lines| ==> !IsKeyLine(lines[j])
  {
    FirstWhere(lines, IsKeyLine)
  }

  /** An export line whose unquoted value is non-empty. */
  predicate HasKey(line: string) {
    IsKeyLine(line) && KeyValue(line) != ""
  }

  /** Index of the first export line with a non-empty value (the line check_tasks.py stops at). */
  function FirstNonEmptyKeyLine(lines: seq<string>): (r: Option<nat>)
    ensures r.Some? ==> r.value < |lines| && HasKey(lines[r.value])
    ensures r.Some? ==> forall j :: 0 <= j < r.value ==> !HasKey(lines[j])
    ensures r.None? ==> forall j :: 0 <= j < |lines| ==> !HasKey(lines[j])
  {
    FirstWhere(lines, HasKey)
  }

  /** daemon.py's `get_api_key`: the first export line decides, even when its value is empty. */
  function DaemonApiKey(env: Option<string>, config: ConfigFile): Option<string> {
    if env.Some? && env.value != "" then env
    else match config
      case Missing => None
      case Unreadable => None
      case Lines(lines) =>
        match FirstKeyLine(lines)
        case None => None
        case Some(i) => Some(KeyValue(lines[i]))
  }

  /** check_tasks.py's `get_api_key`: export lines with an empty value are skipped. */
  function CheckTasksApiKey(env: Option<string>, config: ConfigFile): Result<string, string> {
    if env.Some? && env.value != "" then Ok(env.value)
    else match config
      case Missing => Err(NotConfiguredMessage)
      case Unreadable => Err(NotConfiguredMessage)
      case Lines(lines) =>
        match FirstNonEmptyKeyLine(lines)
        case None => Err(NotConfiguredMessage)
        case Some(i) => Ok(KeyValue(lines[i]))
  }

  /** check_tasks.py: a key is found exactly when the environment or some export line has a non-empty one. */
  lemma CheckTasksKeyFound(env: Option<string>, config: ConfigFile)
    ensures CheckTasksApiKey(env, config).Ok? <==>
            (env.Some? && env.value != "") ||
            (config.Lines? && exists j :: 0 <= j < |config.lines| && HasKey(config.lines[j]))
    ensures CheckTasksApiKey(env, config).Ok? ==> CheckTasksApiKey(env, config).value != ""
    ensures CheckTasksApiKey(env, config).Err? ==> CheckTasksApiKey(env, config).error == NotConfiguredMessage
  {
  }

  /**
   * Both versions agree whenever daemon.py finds a non-empty key; when check_tasks.py
   * finds none, daemon.py has either nothing or the empty string.
   */
  lemma ApiKeyVersionsAgree(env: Option<string>, config: ConfigFile)
    ensures DaemonApiKey(env, config).Some? && DaemonApiKey(env, config).value != "" ==>
            CheckTasksApiKey(env, config) == Ok(DaemonApiKey(env, config).value)
    ensures CheckTasksApiKey(env, config).Err? ==>
            DaemonApiKey(env, config) == None || DaemonApiKey(env, config) == Some("")
  {
    if !(env.Some? && env.value != "") && config.Lines? {
      var lines := config.lines;
      var d := FirstKeyLine(lines);
      var c := FirstNonEmptyKeyLine(lines);
      if c.Some? {
        assert IsKeyLine(lines[c.value]);
        assert d.Some? && d.value <= c.value;
      }
      if d.Some? && KeyValue(lines[d.value]) != "" {
        assert HasKey(lines[d.value]);
        assert c.Some? && c.value <= d.value;
      }
    }
  }

  /** The cases where the two versions differ: the first export line has an empty value. */
  lemma EmptyValueDiffers(env: Option<string>, lines: seq<string>, i: nat)
    requires !(env.Some? && env.value != "")
    requires i < |lines| && IsKeyLine(lines[i]) && KeyValue(lines[i]) == ""
    requires forall j :: 0 <= j < i ==> !IsKeyLine(lines[j])
    ensures DaemonApiKey(env, Lines(lines)) == Some("")
    ensures CheckTasksApiKey(env, Lines(lines)).Ok? ==>
            exists j :: i < j < |lines| && HasKey(lines[j]) &&
                        CheckTasksApiKey(env, Lines(lines)).value == KeyValue(lines[j])
  {
    assert FirstKeyLine(lines) == Some(i) by {
      var r := FirstKeyLine(lines);
      assert r.Some?;
      assert !(r.value < i);
      assert !(r.value > i);
    }
    match FirstNonEmptyKeyLine(lines)
    case None =>
    case Some(j) =>
      assert IsKeyLine(lines[j]);
      assert j != i;
  }
}
