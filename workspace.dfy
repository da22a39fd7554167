/**
 * Per-task workspaces (`get_worktree_path` and `create_worktree` in daemon.py): task N
 * runs on branch `push-N` in a git worktree `push-N` next to the current directory.
 * A path is a sequence of components below the file-system root; the file system is
 * the set of worktree paths that exist, and the two `git worktree add` runs are oracle
 * results.
 */
module Workspace {
  import opened Strings

  /** An absolute path as its components: `[]` is `/`, `["home", "u"]` is `/home/u`. */
  type Path = seq<string>

  /** `str(path)`. */
  function PathText(p: Path): string {
    "/" + Join(p, '/')
  }

  /** `Path.parent`; the root is its own parent. */
  function Parent(p: Path): (r: Path)
    ensures p != [] ==> p == r + [p[|p| - 1]]
    ensures p == [] ==> r == []
  {
    if p == [] then [] else p[..|p| - 1]
  }

  /** The branch of task `n`: `push-N`. */
  function BranchName(n: int): (r: string)
    ensures StartsWith(r, "push-") && r[5..] == IntToString(n)
  {
    "push-" + IntToString(n)
  }

  /** The worktree of task `n` when the daemon runs in `cwd`. */
  function WorktreePath(cwd: Path, n: int): (r: Path)
    ensures Parent(r) == Parent(cwd) && r != [] && r[|r| - 1] == BranchName(n)
  {
    Parent(cwd) + [BranchName(n)]
  }

  /** Different tasks never share a branch or a worktree. */
  lemma WorktreeInjective(cwd: Path, a: int, b: int)
    ensures BranchName(a) == BranchName(b) <==> a == b
    ensures WorktreePath(cwd, a) == WorktreePath(cwd, b) <==> a == b
  {
    if BranchName(a) == BranchName(b) {
      assert BranchName(a)[5..] == BranchName(b)[5..];
      IntToStringInjective(a, b);
    }
    if WorktreePath(cwd, a) == WorktreePath(cwd, b) {
      var k := |Parent(cwd)|;
      assert WorktreePath(cwd, a)[k] == WorktreePath(cwd, b)[k];
      assert BranchName(a)[5..] == BranchName(b)[5..];
      IntToStringInjective(a, b);
    }
  }

  /** What one `git worktree add` run gave: an exit code, or an exception (timeout, no git). */
  datatype GitRun = Exit(code: int) | GitRaised

  /** The first attempt creates the branch. */
  function AddNewBranch(cwd: Path, n: int): seq<string> {
    ["git", "worktree", "add", PathText(WorktreePath(cwd, n)), "-b", BranchName(n)]
  }

  /** The fallback checks out a branch that already exists. */
  function AddExistingBranch(cwd: Path, n: int): seq<string> {
    ["git", "worktree", "add", PathText(WorktreePath(cwd, n)), BranchName(n)]
  }

  /** The outcome of `create_worktree`: success, the worktrees that now exist, the git commands run. */
  datatype Creation = Creation(ok: bool, worktrees: set<Path>, commands: seq<seq<string>>)

  /**
   * `create_worktree`: an existing path is reused without running git; otherwise the
   * new-branch form is tried, then the existing-branch form. A successful run creates the path.
   */
  function CreateWorktree(worktrees: set<Path>, cwd: Path, n: int, first: GitRun, second: GitRun): Creation {
    var path := WorktreePath(cwd, n);
    if path in worktrees then Creation(true, worktrees, [])
    else if first == Exit(0) then Creation(true, worktrees + {path}, [AddNewBranch(cwd, n)])
    else if first.GitRaised? then Creation(false, worktrees, [AddNewBranch(cwd, n)])
    else if second == Exit(0) then Creation(true, worktrees + {path}, [AddNewBranch(cwd, n), AddExistingBranch(cwd, n)])
    else Creation(false, worktrees, [AddNewBranch(cwd, n), AddExistingBranch(cwd, n)])
  }

  /**
   * The whole behaviour of `create_worktree`: it succeeds exactly when the path existed or
   * one of the two runs exited 0; the fallback runs only after the first exited non-zero;
   * the path exists afterwards exactly when it succeeded; no other path changes.
   */
  lemma CreateWorktreeOutcome(worktrees: set<Path>, cwd: Path, n: int, first: GitRun, second: GitRun)
    ensures var c := CreateWorktree(worktrees, cwd, n, first, second);
      var path := WorktreePath(cwd, n);
      && (c.ok <==> path in worktrees || first == Exit(0) || (first.Exit? && second == Exit(0)))
      && (c.ok <==> path in c.worktrees)
      && c.worktrees - {path} == worktrees - {path}
      && (path in worktrees ==> c.commands == [])
      && (path !in worktrees ==> |c.commands| >= 1 && c.commands[0] == AddNewBranch(cwd, n))
      && (|c.commands| == 2 <==> path !in worktrees && first.Exit? && first.code != 0)
      && (|c.commands| == 2 ==> c.commands[1] == AddExistingBranch(cwd, n))
  {
  }

  /** Creating a worktree twice runs git at most for the first call: the second reuses the path. */
  lemma CreateWorktreeIdempotent(worktrees: set<Path>, cwd: Path, n: int, first: GitRun, second: GitRun, first2: GitRun, second2: GitRun)
    requires CreateWorktree(worktrees, cwd, n, first, second).ok
    ensures var c := CreateWorktree(worktrees, cwd, n, first, second);
      CreateWorktree(c.worktrees, cwd, n, first2, second2) == Creation(true, c.worktrees, [])
  {
  }
}
