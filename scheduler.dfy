/**
 * The daemon as the program runs it: one object whose fields are the `running_tasks`
 * dict and the effects the daemon has on the outside world, updated in place by
 * `execute_task`, `check_running_tasks`, one iteration of the main loop and `cleanup`.
 * The first three are proved to leave exactly the next state the matching function of
 * module Daemon describes; `cleanup` is specified directly and ends the daemon.
 */
module Scheduling {
  import opened Wrappers
  import opened Workspace
  import opened Daemon

  class Scheduler {
    /** The directory the daemon was started in; worktrees go next to it. */
    const cwd: Path
    /** `running_tasks`: the map and its keys in insertion order. */
    var running: map<int, Handle>
    var order: seq<int>
    var worktrees: set<Path>
    var updates: seq<Payload>
    var gitCommands: seq<seq<string>>
    var launches: seq<Launch>
    /** Processes sent `terminate()` by `cleanup`, in order. */
    var terminated: seq<Handle>
    var pidFilePresent: bool
    /** None while the daemon runs; the code of `sys.exit` once it has exited. */
    var exitCode: Option<int>

    function Model(): State
      reads this
    {
      State(cwd, running, order, worktrees, updates, gitCommands, launches)
    }

    /** The table is a valid dict within the cap (`Daemon.Valid` of the model). */
    predicate Valid()
      reads this
    {
      ValidTable(running, order)
    }

    constructor (cwd: Path, worktrees: set<Path>)
      ensures Model() == State(cwd, map[], [], worktrees, [], [], [])
      ensures Valid()
      ensures terminated == [] && pidFilePresent && exitCode == None
    {
      this.cwd := cwd;
      running := map[];
      order := [];
      this.worktrees := worktrees;
      updates := [];
      gitCommands := [];
      launches := [];
      terminated := [];
      pidFilePresent := true;
      exitCode := None;
    }

    /** `update_task_status`: build the payload and send it. */
    method UpdateTaskStatus(n: int, status: string, summary: Option<string>, error: Option<string>)
      modifies this`updates
      ensures updates == old(updates) + [BuildPayload(n, status, summary, error)]
    {
      var payload := Payload(n, status, None, None);
      if summary.Some? && summary.value != "" {
        payload := payload.(summary := summary);
      }
      if error.Some? && error.value != "" {
        payload := payload.(error := error);
      }
      updates := updates + [payload];
    }

    /** `create_worktree` for task `n`, given what the two git runs will do. */
    method CreateWorktree(n: int, first: GitRun, second: GitRun) returns (ok: bool)
      modifies this`worktrees, this`gitCommands
      ensures var c := Workspace.CreateWorktree(old(worktrees), cwd, n, first, second);
        ok == c.ok && worktrees == c.worktrees && gitCommands == old(gitCommands) + c.commands
    {
      var path := WorktreePath(cwd, n);
      if path in worktrees {
        return true;
      }
      gitCommands := gitCommands + [AddNewBranch(cwd, n)];
      if first.GitRaised? {
        return false;
      }
      if first.code == 0 {
        worktrees := worktrees + {path};
        return true;
      }
      gitCommands := gitCommands + [AddExistingBranch(cwd, n)];
      if second == Exit(0) {
        worktrees := worktrees + {path};
        return true;
      }
      return false;
    }

    /** `execute_task`. */
    method ExecuteTask(task: Task, env: Env)
      requires Valid()
      requires exitCode.None?
      modifies this`running, this`order, this`worktrees, this`updates, this`gitCommands, this`launches
      ensures Model() == Daemon.ExecuteTask(old(Model()), task, env)
      ensures Valid()
    {
      assert Daemon.Valid(Model());
      ExecutePreservesValid(Model(), task, env);
      var num := DisplayNumberOf(task);
      var content := ContentOf(task);
      if num.None? {
        return;
      }
      var n := num.value;
      if n in running {
        return;
      }
      if |running| >= MaxConcurrentTasks {
        return;
      }
      Dispatch(n, content, env);
    }

    /** The rest of `execute_task` once the tests pass: report `running`, make the worktree, spawn. */
    method Dispatch(n: int, content: string, env: Env)
      requires exitCode.None?
      modifies this`running, this`order, this`worktrees, this`updates, this`gitCommands, this`launches
      ensures Model() == Daemon.Dispatch(old(Model()), n, content, env)
    {
      UpdateTaskStatus(n, "running", None, None);
      var ok := CreateWorktree(n, env.first, env.second);
      if !ok {
        UpdateTaskStatus(n, "failed", None, Some(WorktreeFailure));
        return;
      }
      launches := launches + [Launch(WorktreePath(cwd, n), n, content)];
      match env.spawn
      case Spawned(h) =>
        running := running[n := h];
        order := order + [n];
      case SpawnRaised(msg) =>
        UpdateTaskStatus(n, "failed", None, Some(msg));
    }

    /** `check_running_tasks`: poll every entry in table order, then delete the completed ones. */
    method CheckRunningTasks(poll: Handle -> PollResult)
      requires Valid()
      requires exitCode.None?
      modifies this`running, this`order, this`updates
      ensures Model() == Reap(old(Model()), poll)
      ensures Valid()
    {
      assert Daemon.Valid(Model());
      ReapPreservesValid(Model(), poll);
      var completed := PollTasks(poll);
      ghost var r0, o0 := running, order;
      DeleteTasks(completed);
      ReapByDeletion(r0, o0, poll);
    }

    /**
     * The first loop of `check_running_tasks`: poll each entry in table order, collect the
     * exited ones and send a `failed` update for each non-zero exit.
     */
    method PollTasks(poll: Handle -> PollResult) returns (completed: seq<int>)
      requires Valid()
      modifies this`updates
      ensures completed == ExitedKeys(order, running, poll)
      ensures updates == old(updates) + FailureUpdates(order, running, poll)
    {
      completed := [];
      var i := 0;
      while i < |order|
        invariant 0 <= i <= |order|
        invariant ValidTable(running, order)
        invariant completed == ExitedKeys(order[..i], running, poll)
        invariant updates == old(updates) + FailureUpdates(order[..i], running, poll)
      {
        var k := order[i];
        PollStep(order, i, running, poll);
        var exited := PollOne(k, poll);
        if exited {
          completed := completed + [k];
        }
        i := i + 1;
      }
      assert order[..i] == order;
    }

    /** Poll one entry of the table; a non-zero exit is reported as a `failed` update. */
    method PollOne(k: int, poll: Handle -> PollResult) returns (exited: bool)
      requires k in running
      modifies this`updates
      ensures exited == PollOf(running, poll, k).Exited?
      ensures updates == old(updates) + FailureOf(running, poll, k)
    {
      var r := poll(running[k]);
      if r.Exited? && r.code != 0 {
        UpdateTaskStatus(k, "failed", None, Some(ExitError(r.code, r.stderr)));
      }
      exited := r.Exited?;
    }

    /** The second loop of `check_running_tasks`: `del running_tasks[n]` for each completed `n`, in order. */
    method DeleteTasks(completed: seq<int>)
      modifies this`running, this`order
      ensures running == DeleteMap(old(running), completed)
      ensures order == DeleteOrder(old(order), completed)
    {
      var j := 0;
      while j < |completed|
        invariant 0 <= j <= |completed|
        invariant running == DeleteMap(old(running), completed[..j])
        invariant order == DeleteOrder(old(order), completed[..j])
      {
        var k := completed[j];
        assert completed[..j + 1][..j] == completed[..j];
        running := running - {k};
        order := Remove(order, k);
        j := j + 1;
      }
      assert completed[..j] == completed;
    }

    /** One iteration of the main loop: reap, then execute the fetched tasks in list order. */
    method Tick(poll: Handle -> PollResult, cands: seq<Candidate>)
      requires Valid()
      requires exitCode.None?
      modifies this`running, this`order, this`worktrees, this`updates, this`gitCommands, this`launches
      ensures Model() == Daemon.Tick(old(Model()), poll, cands)
      ensures Valid() && |running| <= MaxConcurrentTasks
    {
      CheckRunningTasks(poll);
      ghost var reaped := Model();
      var i := 0;
      while i < |cands|
        invariant 0 <= i <= |cands|
        invariant Valid()
        invariant Model() == ExecuteAll(reaped, cands[..i])
      {
        ExecuteTask(cands[i].task, cands[i].env);
        assert cands[..i + 1][..i] == cands[..i];
        i := i + 1;
      }
      assert cands[..i] == cands;
      TableSize(Model());
    }

    /**
     * `cleanup`: terminate every tracked process in table order, remove the PID file, exit 0.
     * After it no method that needs a live daemon (`exitCode == None`) can be called.
     */
    method Cleanup()
      requires Valid()
      requires exitCode.None?
      modifies this`terminated, this`pidFilePresent, this`exitCode
      ensures terminated == old(terminated) + HandlesOf(order, running)
      ensures forall k :: k in running ==> running[k] in terminated
      ensures !pidFilePresent && exitCode == Some(0)
    {
      var i := 0;
      while i < |order|
        invariant 0 <= i <= |order|
        invariant terminated == old(terminated) + HandlesOf(order[..i], running)
      {
        var k := order[i];
        ghost var pre := order[..i + 1];
        assert pre[..i] == order[..i] && pre[i] == k;
        assert HandlesOf(pre, running) == HandlesOf(order[..i], running) + [running[k]];
        terminated := terminated + [running[k]];
        i := i + 1;
      }
      assert order[..i] == order;
      HandlesOfCover(order, running);
      pidFilePresent := false;
      exitCode := Some(0);
    }
  }
}
