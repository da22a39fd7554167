/**
 * Normalisation of the `origin` remote URL into the project key the task service
 * filters on (`get_git_remote` in daemon.py and in check_tasks.py). Both scripts run
 * the same three rewriting steps; they differ only in how an empty URL is treated.
 */
module Remote {
  import opened Wrappers
  import opened Strings

  /** The protocol prefixes, in the order they are tried; at most one is removed. */
  const Prefixes: seq<string> := ["https://", "http://", "git@", "ssh://git@"]

  /** Index of the first prefix in `prefixes` that `url` starts with. */
  function FirstPrefix(url: string, prefixes: seq<string>): (r: Option<nat>)
    ensures r.Some? ==> r.value < |prefixes| && StartsWith(url, prefixes[r.value])
    ensures r.Some? ==> forall j :: 0 <= j < r.value ==> !StartsWith(url, prefixes[j])
    ensures r.None? ==> forall j :: 0 <= j < |prefixes| ==> !StartsWith(url, prefixes[j])
    decreases |prefixes|
  {
    if prefixes == [] then None
    else if StartsWith(url, prefixes[0]) then Some(0)
    else match FirstPrefix(url, prefixes[1..])
      case None => None
      case Some(k) => Some(k + 1)
  }

  /** Step 1: remove the first matching protocol prefix, if any. */
  function StripProtocol(url: string): string {
    match FirstPrefix(url, Prefixes)
    case None => url
    case Some(k) => url[|Prefixes[k]|..]
  }

  /** Python's `s.replace(":", "/", 1)`: only the first colon is replaced. */
  function ReplaceFirstColon(s: string): (r: string)
    ensures ':' !in s ==> r == s
    ensures ':' in s ==> exists i :: 0 <= i < |s| && s[i] == ':' && ':' !in s[..i] && r == s[..i] + "/" + s[i + 1..]
  {
    match IndexOf(s, ':')
    case None => s
    case Some(i) => s[..i] + "/" + s[i + 1..]
  }

  /** Step 2: an scp-style `host:path` becomes `host/path`; URLs that keep a `://` are left alone. */
  function ScpToPath(url: string): string {
    if ':' in url && !Contains(url, "://") then ReplaceFirstColon(url) else url
  }

  /** Step 3: drop one trailing `.git`. */
  function DropGitSuffix(url: string): (r: string)
    ensures EndsWith(url, ".git") ==> r + ".git" == url
    ensures !EndsWith(url, ".git") ==> r == url
  {
    if EndsWith(url, ".git") then url[..|url| - 4] else url
  }

  /** The normalised project key of a remote URL. */
  function Normalize(url: string): string {
    DropGitSuffix(ScpToPath(StripProtocol(url)))
  }

  /**
   * The rewriting as both scripts write it: a loop over the prefixes that removes the
   * first match and breaks, then the colon rewrite, then the suffix.
   */
  method NormalizeUrl(url0: string) returns (url: string)
    ensures url == Normalize(url0)
  {
    url := url0;
    var i := 0;
    while i < |Prefixes|
      invariant 0 <= i <= |Prefixes|
      invariant forall j :: 0 <= j < i ==> !StartsWith(url0, Prefixes[j])
      invariant url == url0
    {
      if StartsWith(url, Prefixes[i]) {
        assert FirstPrefix(url0, Prefixes) == Some(i) by {
          FirstPrefixIs(url0, Prefixes, i);
        }
        url := url[|Prefixes[i]|..];
        break;
      }
      i := i + 1;
    }
    assert url == StripProtocol(url0);
    if ':' in url && !Contains(url, "://") {
      url := ReplaceFirstColon(url);
    }
    if EndsWith(url, ".git") {
      url := url[..|url| - 4];
    }
  }

  lemma {:induction false} FirstPrefixIs(url: string, prefixes: seq<string>, i: nat)
    requires i < |prefixes| && StartsWith(url, prefixes[i])
    requires forall j :: 0 <= j < i ==> !StartsWith(url, prefixes[j])
    ensures FirstPrefix(url, prefixes) == Some(i)
    decreases i
  {
    if i > 0 {
      FirstPrefixIs(url, prefixes[1..], i - 1);
    }
  }

  // ---------------------------------------------------------------- the two callers

  /** What running `git remote get-url origin` gave: an exit code and stdout, or an exception. */
  datatype GitQuery = Completed(returncode: int, stdout: string) | Raised

  /** daemon.py's `get_git_remote`: an empty URL still yields `Some("")`. */
  function DaemonGitRemote(q: GitQuery): (r: Option<string>)
    ensures r.Some? <==> q.Completed? && q.returncode == 0
    ensures r.Some? ==> r.value == Normalize(Strip(q.stdout))
  {
    match q
    case Raised => None
    case Completed(code, out) => if code != 0 then None else Some(Normalize(Strip(out)))
  }

  /** check_tasks.py's `get_git_remote`: an empty URL yields `None`. */
  function CheckTasksGitRemote(q: GitQuery): (r: Option<string>)
    ensures r.Some? <==> q.Completed? && q.returncode == 0 && Strip(q.stdout) != ""
    ensures r.Some? ==> r.value == Normalize(Strip(q.stdout))
  {
    match q
    case Raised => None
    case Completed(code, out) =>
      if code != 0 then None
      else
        var url := Strip(out);
        if url == "" then None else Some(Normalize(url))
  }

  /** The two versions differ exactly on an empty (or all-whitespace) URL. */
  lemma GitRemotesAgree(q: GitQuery)
    ensures CheckTasksGitRemote(q) ==
            if q.Completed? && Strip(q.stdout) == "" then None else DaemonGitRemote(q)
    ensures q.Completed? && q.returncode == 0 && Strip(q.stdout) == "" ==>
            DaemonGitRemote(q) == Some("")
  {
    if q.Completed? && q.returncode == 0 && Strip(q.stdout) == "" {
      assert Normalize("") == "" by {
        assert FirstPrefix("", Prefixes) == None;
      }
    }
  }

  // ---------------------------------------------------------------- the documented examples

  lemma NoSchemeAfterColon(host: string, path: string)
    requires ':' !in host && ':' !in path && !StartsWith(path, "//")
    ensures !Contains(host + ":" + path, "://")
  {
    var u := host + ":" + path;
    forall i: nat
      ensures !OccursAt(u, "://", i)
    {
      if i + 3 > |u| {
      } else if i == |host| {
        assert u[i + 1..i + 3] == path[..2];
      } else if i < |host| {
        assert u[i] == host[i];
        assert u[i..i + 3][0] != ':';
      } else {
        assert u[i] == path[i - |host| - 1];
        assert u[i..i + 3][0] != ':';
      }
    }
    NotContains(u, "://");
  }

  lemma ColonIndex(host: string, path: string)
    requires ':' !in host
    ensures IndexOf(host + ":" + path, ':') == Some(|host|)
  {
    var u := host + ":" + path;
    assert u[|host|] == ':';
    assert u[..|host|] == host;
  }

  lemma NoDoubleSlashAfterAppend(path: string, t: string)
    requires !StartsWith(path, "//") && t != [] && t[0] != '/'
    ensures !StartsWith(path + t, "//")
  {
    if |path| >= 2 {
      assert (path + t)[..2] == path[..2];
    } else if |path| == 1 {
      assert (path + t)[1] == t[0];
    } else {
      assert (path + t)[0] == t[0];
    }
  }

  /**
   * The scp-style form of a repository address normalises to `host/path`
   * (check_tasks.py:69 gives github.com/user/repo as the example).
   */
  lemma ScpFormNormalizes(host: string, path: string)
    requires ':' !in host && ':' !in path && !StartsWith(path, "//")
    ensures Normalize("git@" + host + ":" + path + ".git") == host + "/" + path
  {
    var scp := "git@" + host + ":" + path + ".git";
    assert scp[0] == 'g';
    assert !StartsWith(scp, Prefixes[0]) && !StartsWith(scp, Prefixes[1]);
    assert StartsWith(scp, Prefixes[2]);
    FirstPrefixIs(scp, Prefixes, 2);
    var rest := path + ".git";
    var u1 := host + ":" + rest;
    assert scp[4..] == u1;
    assert StripProtocol(scp) == u1;
    NoDoubleSlashAfterAppend(path, ".git");
    NoSchemeAfterColon(host, rest);
    ColonIndex(host, rest);
    assert u1[..|host|] == host && u1[|host| + 1..] == rest;
    var u2 := host + "/" + path + ".git";
    assert ScpToPath(u1) == u2;
    assert u2[..|u2| - 4] == host + "/" + path;
  }

  /** The HTTPS form of the same repository normalises to the same key (check_tasks.py:70). */
  lemma HttpsFormNormalizes(host: string, path: string)
    requires ':' !in host && ':' !in path
    ensures Normalize("https://" + host + "/" + path + ".git") == host + "/" + path
  {
    var web := "https://" + host + "/" + path + ".git";
    assert StartsWith(web, Prefixes[0]);
    FirstPrefixIs(web, Prefixes, 0);
    var w1 := host + "/" + path + ".git";
    assert web[8..] == w1;
    assert StripProtocol(web) == w1;
    assert ':' !in w1;
    assert ScpToPath(w1) == w1;
    assert w1[..|w1| - 4] == host + "/" + path;
  }
}
