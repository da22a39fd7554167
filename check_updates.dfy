/**
 * The plugin update check (check_updates.py): compare the installed version with the one
 * published on GitHub and, when the published one is newer, either pull it or print a
 * notice. The files, the network and git are inputs.
 */
module CheckUpdates {
  import opened Wrappers
  import opened Strings
  import opened Versions

  /** `parse_version`: the first three dot-separated parts as integers; anything unreadable is 0.0.0. */
  function ParseVersion(v: string): (r: Version)
    ensures var parts := SplitOn(v, '.');
      (|parts| >= 3 && ParseInt(parts[0]).Some? && ParseInt(parts[1]).Some? && ParseInt(parts[2]).Some?) ==>
        r == Version(ParseInt(parts[0]).value, ParseInt(parts[1]).value, ParseInt(parts[2]).value)
    ensures var parts := SplitOn(v, '.');
      !(|parts| >= 3 && ParseInt(parts[0]).Some? && ParseInt(parts[1]).Some? && ParseInt(parts[2]).Some?) ==>
        r == Version(0, 0, 0)
  {
    var parts := SplitOn(v, '.');
    if |parts| < 3 then Version(0, 0, 0)
    else match (ParseInt(parts[0]), ParseInt(parts[1]), ParseInt(parts[2]))
      case (Some(a), Some(b), Some(c)) => Version(a, b, c)
      case _ => Version(0, 0, 0)
  }

  /** `is_newer`: the remote version is newer when its triple is greater. */
  predicate IsNewer(remote: string, local: string) {
    Newer(ParseVersion(remote), ParseVersion(local))
  }

  /**
   * `is_newer` inherits the tuple order: never newer than itself, never both ways,
   * transitive, and of two strings that parse to different triples one is newer.
   */
  lemma IsNewerOrder(a: string, b: string, c: string)
    ensures !IsNewer(a, a)
    ensures IsNewer(a, b) ==> !IsNewer(b, a)
    ensures IsNewer(a, b) && IsNewer(b, c) ==> IsNewer(a, c)
    ensures ParseVersion(a) != ParseVersion(b) ==> IsNewer(a, b) || IsNewer(b, a)
  {
    NewerIsStrictOrder(ParseVersion(a), ParseVersion(b), ParseVersion(c));
  }

  /** A version string without a minus sign parses to non-negative components. */
  lemma ParseVersionNonNegative(v: string)
    requires '-' !in v
    ensures var r := ParseVersion(v); r.major >= 0 && r.minor >= 0 && r.patch >= 0
  {
    var parts := SplitOn(v, '.');
    SplitOnChars(v, '.');
    if |parts| >= 3 && ParseInt(parts[0]).Some? && ParseInt(parts[1]).Some? && ParseInt(parts[2]).Some? {
      assert '-' !in parts[0] && '-' !in parts[1] && '-' !in parts[2];
      ParseIntNonNegative(parts[0]);
      ParseIntNonNegative(parts[1]);
      ParseIntNonNegative(parts[2]);
    }
  }

  /** A remote version that does not parse is never newer than a local one without a minus sign. */
  lemma MalformedNeverNewer(remote: string, local: string)
    requires ParseVersion(remote) == Version(0, 0, 0)
    requires '-' !in local
    ensures !IsNewer(remote, local)
  {
    ParseVersionNonNegative(local);
  }

  /** Parts after the third are ignored. */
  lemma ExtraPartsIgnored(v: string, rest: string)
    requires |SplitOn(v, '.')| == 3
    ensures ParseVersion(v + "." + rest) == ParseVersion(v)
  {
    SplitOnAppend(v, rest, '.');
    var parts := SplitOn(v + "." + rest, '.');
    assert parts[..3] == SplitOn(v, '.');
    assert parts[0] == SplitOn(v, '.')[0] && parts[1] == SplitOn(v, '.')[1] && parts[2] == SplitOn(v, '.')[2];
  }

  // ---------------------------------------------------------------- the decision chain of main

  /** `get_installation_source`. */
  datatype Source = Symlink | Git | Manual

  /** A symlinked skill wins over a git checkout, which wins over a manual copy. */
  function InstallationSource(isSymlink: bool, isGitRepo: bool): (s: Source)
    ensures s == Symlink <==> isSymlink
    ensures s == Git <==> !isSymlink && isGitRepo
    ensures s == Manual <==> !isSymlink && !isGitRepo
  {
    if isSymlink then Symlink else if isGitRepo then Git else Manual
  }

  /**
   * Auto-update is on when `--auto-update` is given or the variable (default "true")
   * lower-cased differs from "false".
   */
  function AutoUpdate(flag: bool, env: Option<string>): (on: bool)
    ensures !flag && env.None? ==> on
    ensures flag ==> on
    ensures !flag && env.Some? ==> (on <==> Lower(env.value) != "false")
  {
    flag || Lower(env.GetOr("true")) != "false"
  }

  /** What `git pull --ff-only` gave: an exit code, or an exception. */
  datatype PullRun = PullExit(code: int) | PullRaised

  /** What the world looks like to one run of `main`. */
  datatype World = World(
    autoFlag: bool, env: Option<string>,
    local: Option<string>, remote: Option<string>,
    isSymlink: bool, isGitRepo: bool,
    pull: PullRun)

  /** What `main` did: whether it ran `git pull`, and the lines it printed. */
  datatype Decision = Decision(pulled: bool, lines: seq<string>)

  const Arrow: string := " \U{2192} v"

  function UpdatedLine(local: string, remote: string): string {
    "[Push] Plugin updated: v" + local + Arrow + remote
  }

  function AvailableLines(local: string, remote: string): seq<string> {
    ["[Push] Update available: v" + local + Arrow + remote,
     "[Push] To update: cd ~/.claude/skills/push-todo && git pull"]
  }

  /** `main` after argument parsing. */
  function Decide(w: World): Decision {
    if w.local.None? || w.local.value == "" then Decision(false, [])
    else if w.remote.None? || w.remote.value == "" then Decision(false, [])
    else if !IsNewer(w.remote.value, w.local.value) then Decision(false, [])
    else
      var source := InstallationSource(w.isSymlink, w.isGitRepo);
      if AutoUpdate(w.autoFlag, w.env) && source != Manual then
        if w.pull == PullExit(0) then Decision(true, [UpdatedLine(w.local.value, w.remote.value)])
        else Decision(true, AvailableLines(w.local.value, w.remote.value))
      else Decision(false, AvailableLines(w.local.value, w.remote.value))
  }

  /**
   * Nothing happens unless both versions are known and the remote is newer; a pull runs
   * exactly when auto-update is on and the plugin is a symlink or a git checkout; the
   * "updated" line appears exactly when that pull succeeded, and the notice otherwise.
   */
  lemma DecideOutcome(w: World)
    ensures var d := Decide(w);
      var known := w.local.Some? && w.local.value != "" && w.remote.Some? && w.remote.value != "";
      var update := known && IsNewer(w.remote.value, w.local.value);
      && (d.lines == [] <==> !update)
      && (d.pulled <==> update && AutoUpdate(w.autoFlag, w.env) && (w.isSymlink || w.isGitRepo))
      && (update && d.pulled && w.pull == PullExit(0) ==> d.lines == [UpdatedLine(w.local.value, w.remote.value)])
      && (update && !(d.pulled && w.pull == PullExit(0)) ==> d.lines == AvailableLines(w.local.value, w.remote.value))
  {
  }
}
