/**
 * The task-execution daemon (daemon.py): a table of running agent processes keyed by the
 * task's display number, filled by `execute_task`, reaped by `check_running_tasks`, and
 * emptied of processes by `cleanup`. Every call of `update_task_status` is recorded as the
 * payload it builds; git and the agent process are oracle results.
 *
 * The table is a Python dict, so it has an iteration order: here a map from display
 * number to process handle together with the sequence of its keys in insertion order.
 */
module Daemon {
  import opened Wrappers
  import opened Strings
  import opened Workspace

  const MaxConcurrentTasks: nat := 3

  // ---------------------------------------------------------------- tasks and payloads

  /**
   * A queued task as fetched. `displayNumber`/`displayNumberAlt` are the keys
   * `displayNumber`/`display_number`, `normalizedContent`/`normalizedContentAlt` are
   * `normalizedContent`/`normalized_content`; `None` is a missing key or a JSON null.
   */
  datatype Task = Task(
    displayNumber: Option<int>,
    displayNumberAlt: Option<int>,
    normalizedContent: Option<string>,
    normalizedContentAlt: Option<string>,
    summary: Option<string>)

  predicate TruthyInt(v: Option<int>) { v.Some? && v.value != 0 }

  predicate TruthyText(v: Option<string>) { v.Some? && v.value != "" }

  /** `task.get("displayNumber") or task.get("display_number")`, then the `not display_num` test. */
  function DisplayNumberOf(t: Task): (r: Option<int>)
    ensures r.Some? <==> TruthyInt(t.displayNumber) || TruthyInt(t.displayNumberAlt)
    ensures r.Some? ==> r.value != 0
    ensures TruthyInt(t.displayNumber) ==> r == t.displayNumber
    ensures !TruthyInt(t.displayNumber) && TruthyInt(t.displayNumberAlt) ==> r == t.displayNumberAlt
  {
    if TruthyInt(t.displayNumber) then t.displayNumber
    else if TruthyInt(t.displayNumberAlt) then t.displayNumberAlt
    else None
  }

  const DefaultContent: string := "Work on this task"

  /** The content the agent is asked to work on: the first non-empty of the three keys, else a default. */
  function ContentOf(t: Task): (r: string)
    ensures r != ""
    ensures TruthyText(t.normalizedContent) ==> r == t.normalizedContent.value
    ensures !TruthyText(t.normalizedContent) && TruthyText(t.normalizedContentAlt) ==> r == t.normalizedContentAlt.value
    ensures !TruthyText(t.normalizedContent) && !TruthyText(t.normalizedContentAlt) && TruthyText(t.summary) ==>
            r == t.summary.value
    ensures !TruthyText(t.normalizedContent) && !TruthyText(t.normalizedContentAlt) && !TruthyText(t.summary) ==>
            r == DefaultContent
  {
    if TruthyText(t.normalizedContent) then t.normalizedContent.value
    else if TruthyText(t.normalizedContentAlt) then t.normalizedContentAlt.value
    else if TruthyText(t.summary) then t.summary.value
    else DefaultContent
  }

  /** The JSON body of one `update-task-execution` request. */
  datatype Payload = Payload(displayNumber: int, status: string, summary: Option<string>, error: Option<string>)

  /** `update_task_status`'s payload: `summary` and `error` are present only when non-empty. */
  function BuildPayload(n: int, status: string, summary: Option<string>, error: Option<string>): (p: Payload)
    ensures p.displayNumber == n && p.status == status
    ensures p.summary.Some? <==> TruthyText(summary)
    ensures p.error.Some? <==> TruthyText(error)
    ensures p.summary.Some? ==> p.summary == summary
    ensures p.error.Some? ==> p.error == error
  {
    Payload(n, status,
            if TruthyText(summary) then summary else None,
            if TruthyText(error) then error else None)
  }

  function RunningUpdate(n: int): Payload { BuildPayload(n, "running", None, None) }

  function FailedUpdate(n: int, error: string): Payload { BuildPayload(n, "failed", None, Some(error)) }

  const WorktreeFailure: string := "Failed to create git worktree"

  /** The error reported for an agent that exited with a non-zero code. */
  function ExitError(code: int, stderr: string): string {
    "Exit code " + IntToString(code) + ": " + Take(stderr, 200)
  }

  // ---------------------------------------------------------------- processes

  /** An agent process, known by its process id. */
  datatype Handle = Handle(pid: int)

  /** `proc.poll()` with the captured stderr: still running, or exited with a code. */
  datatype PollResult = StillRunning | Exited(code: int, stderr: string)

  /** What `Popen` did: started a process, or raised with a message (`str(e)`). */
  datatype Spawn = Spawned(handle: Handle) | SpawnRaised(message: string)

  /** The oracle results one `execute_task` call may consult. */
  datatype Env = Env(first: GitRun, second: GitRun, spawn: Spawn)

  /** A fetched task together with what the outside world will do when it is executed. */
  datatype Candidate = Candidate(task: Task, env: Env)

  /** One agent start: the worktree it runs in, and the task number and content its prompt is made of. */
  datatype Launch = Launch(worktree: Path, displayNumber: int, content: string)

  const AllowedTools: string := "Read,Edit,Write,Glob,Grep,Bash(git *)"

  /** The instructions appended to every prompt after the task content. */
  const PromptTrailer: string :=
    "\n\nIMPORTANT: When you're done, the SessionEnd hook will automatically report completion to Supabase." +
    "\n\nIf you need to understand the codebase, start by reading the CLAUDE.md file if it exists."

  /** The prompt handed to the agent. */
  function Prompt(n: int, content: string): string {
    "Work on Push task #" + IntToString(n) + ":\n\n" + content + PromptTrailer
  }

  /** The command line of a launch. */
  function Argv(l: Launch): seq<string> {
    ["claude", "-p", Prompt(l.displayNumber, l.content), "--allowedTools", AllowedTools, "--output-format", "json"]
  }

  // ---------------------------------------------------------------- the daemon state

  /**
   * Everything the scheduler changes: the table (`running` with its key order `order`),
   * the worktrees that exist, and the history of status updates, git commands and launches.
   */
  datatype State = State(
    cwd: Path,
    running: map<int, Handle>,
    order: seq<int>,
    worktrees: set<Path>,
    updates: seq<Payload>,
    gitCommands: seq<seq<string>>,
    launches: seq<Launch>)

  predicate Distinct(s: seq<int>) {
    forall i, j :: 0 <= i < j < |s| ==> s[i] != s[j]
  }

  function Elems(s: seq<int>): set<int> {
    set x | x in s
  }

  /** The table is a dict: its keys, each once, in `order`, and never more than the cap. */
  predicate Valid(st: State) {
    ValidTable(st.running, st.order)
  }

  predicate ValidTable(running: map<int, Handle>, order: seq<int>) {
    && (forall k :: k in running ==> k in order)
    && (forall k :: k in order ==> k in running)
    && Distinct(order)
    && |order| <= MaxConcurrentTasks
  }

  /** Adding a new key below the cap keeps the table a dict within the cap. */
  lemma InsertValid(running: map<int, Handle>, order: seq<int>, n: int, h: Handle)
    requires ValidTable(running, order) && n !in running && |order| < MaxConcurrentTasks
    ensures ValidTable(running[n := h], order + [n])
  {
  }

  lemma {:induction false} DistinctCard(s: seq<int>)
    requires Distinct(s)
    ensures |Elems(s)| == |s|
    decreases |s|
  {
    if s != [] {
      assert Elems(s) == {s[0]} + Elems(s[1..]);
      assert s[0] !in Elems(s[1..]);
      DistinctCard(s[1..]);
    }
  }

  /** `len(running_tasks)` is the length of the key order. */
  lemma TableSize(st: State)
    requires Valid(st)
    ensures |st.running| == |st.order| <= MaxConcurrentTasks
  {
    DistinctCard(st.order);
    assert st.running.Keys == Elems(st.order);
    assert |st.running| == |st.running.Keys|;
  }

  // ---------------------------------------------------------------- execute_task

  /** `execute_task`: the three eligibility tests, then the running update, the worktree and the spawn. */
  function ExecuteTask(st: State, task: Task, env: Env): State {
    match DisplayNumberOf(task)
    case None => st
    case Some(n) =>
      if n in st.running || |st.running| >= MaxConcurrentTasks then st
      else Dispatch(st, n, ContentOf(task), env)
  }

  /** The part of `execute_task` after the tests: report `running`, make the worktree, spawn the agent. */
  function Dispatch(st: State, n: int, content: string, env: Env): State {
    var c := CreateWorktree(st.worktrees, st.cwd, n, env.first, env.second);
    var st1 := st.(updates := st.updates + [RunningUpdate(n)],
                   worktrees := c.worktrees, gitCommands := st.gitCommands + c.commands);
    if !c.ok then st1.(updates := st1.updates + [FailedUpdate(n, WorktreeFailure)])
    else Start(st1, n, content, env.spawn)
  }

  /** The spawn: on success the process joins the table, on an exception a `failed` update is sent. */
  function Start(st: State, n: int, content: string, spawn: Spawn): State {
    var st1 := st.(launches := st.launches + [Launch(WorktreePath(st.cwd, n), n, content)]);
    match spawn
    case Spawned(h) => st1.(running := st1.running[n := h], order := st1.order + [n])
    case SpawnRaised(msg) => st1.(updates := st1.updates + [FailedUpdate(n, msg)])
  }

  /** Whether `execute_task` goes past its three tests for this task. */
  predicate Eligible(st: State, task: Task) {
    DisplayNumberOf(task).Some? && DisplayNumberOf(task).value !in st.running &&
    |st.running| < MaxConcurrentTasks
  }

  /** An ineligible task (no number, already running, or table full) changes nothing at all. */
  lemma ExecuteIneligible(st: State, task: Task, env: Env)
    requires !Eligible(st, task)
    ensures ExecuteTask(st, task, env) == st
  {
  }

  /** What the spawn step does to the table, the updates and the launches. */
  lemma StartEffect(st: State, n: int, content: string, spawn: Spawn)
    ensures var st' := Start(st, n, content, spawn);
      && st'.cwd == st.cwd && st'.worktrees == st.worktrees && st'.gitCommands == st.gitCommands
      && st'.launches == st.launches + [Launch(WorktreePath(st.cwd, n), n, content)]
      && (spawn.Spawned? ==> st'.updates == st.updates &&
                             st'.running == st.running[n := spawn.handle] && st'.order == st.order + [n])
      && (spawn.SpawnRaised? ==> st'.updates == st.updates + [FailedUpdate(n, spawn.message)] &&
                                 st'.running == st.running && st'.order == st.order)
  {
  }

  /**
   * An eligible task gets a `running` update first; then exactly one of: the worktree
   * fails and a `failed` update says so; the spawn raises and a `failed` update carries
   * the message; or the process is added to the table under its number, with no further
   * update. The table changes in no other way.
   */
  lemma ExecuteEligible(st: State, task: Task, env: Env)
    requires Eligible(st, task)
    ensures var n := DisplayNumberOf(task).value;
      var st' := ExecuteTask(st, task, env);
      var c := CreateWorktree(st.worktrees, st.cwd, n, env.first, env.second);
      && st'.cwd == st.cwd
      && st'.worktrees == c.worktrees
      && st'.gitCommands == st.gitCommands + c.commands
      && (!c.ok ==> st'.updates == st.updates + [RunningUpdate(n), FailedUpdate(n, WorktreeFailure)] &&
                    st'.launches == st.launches)
      && (c.ok ==> st'.launches == st.launches + [Launch(WorktreePath(st.cwd, n), n, ContentOf(task))])
      && (c.ok && env.spawn.SpawnRaised? ==>
            st'.updates == st.updates + [RunningUpdate(n), FailedUpdate(n, env.spawn.message)])
      && (c.ok && env.spawn.Spawned? ==>
            st'.updates == st.updates + [RunningUpdate(n)] &&
            st'.running == st.running[n := env.spawn.handle] && st'.order == st.order + [n])
      && (!(c.ok && env.spawn.Spawned?) ==> st'.running == st.running && st'.order == st.order)
  {
    var n := DisplayNumberOf(task).value;
    var c := CreateWorktree(st.worktrees, st.cwd, n, env.first, env.second);
    var st1 := st.(updates := st.updates + [RunningUpdate(n)],
                   worktrees := c.worktrees, gitCommands := st.gitCommands + c.commands);
    assert ExecuteTask(st, task, env) == Dispatch(st, n, ContentOf(task), env);
    if c.ok {
      assert Dispatch(st, n, ContentOf(task), env) == Start(st1, n, ContentOf(task), env.spawn);
      StartEffect(st1, n, ContentOf(task), env.spawn);
      if env.spawn.SpawnRaised? {
        assert st.updates + [RunningUpdate(n)] + [FailedUpdate(n, env.spawn.message)] ==
               st.updates + [RunningUpdate(n), FailedUpdate(n, env.spawn.message)];
      }
    } else {
      assert st.updates + [RunningUpdate(n)] + [FailedUpdate(n, WorktreeFailure)] ==
             st.updates + [RunningUpdate(n), FailedUpdate(n, WorktreeFailure)];
    }
  }

  /** The agent is started with a prompt that opens with the task number and its content. */
  lemma LaunchCommand(l: Launch)
    ensures var a := Argv(l);
      && |a| == 7 && a[0] == "claude" && a[1] == "-p" && a[3] == "--allowedTools"
      && a[4] == "Read,Edit,Write,Glob,Grep,Bash(git *)" && a[5] == "--output-format" && a[6] == "json"
      && StartsWith(a[2], "Work on Push task #" + IntToString(l.displayNumber) + ":\n\n" + l.content)
  {
    var p := Prompt(l.displayNumber, l.content);
    var head := "Work on Push task #" + IntToString(l.displayNumber) + ":\n\n" + l.content;
    assert p[..|head|] == head;
  }

  lemma ExecutePreservesValid(st: State, task: Task, env: Env)
    requires Valid(st)
    ensures Valid(ExecuteTask(st, task, env))
  {
    if Eligible(st, task) {
      TableSize(st);
      var n := DisplayNumberOf(task).value;
      var st' := ExecuteTask(st, task, env);
      ExecuteEligible(st, task, env);
      if st'.running != st.running {
        InsertValid(st.running, st.order, n, env.spawn.handle);
      }
    }
  }

  /**
   * Within one fetch, a second entry for a task that the first entry started is skipped
   * and changes nothing.
   */
  lemma DuplicateInFetchSkipped(st: State, t1: Task, e1: Env, t2: Task, e2: Env)
    requires Eligible(st, t1) && DisplayNumberOf(t2) == DisplayNumberOf(t1)
    requires ExecuteTask(st, t1, e1).running != st.running
    ensures var st1 := ExecuteTask(st, t1, e1); ExecuteTask(st1, t2, e2) == st1
  {
    ExecuteEligible(st, t1, e1);
  }

  // ---------------------------------------------------------------- check_running_tasks

  function PollOf(running: map<int, Handle>, poll: Handle -> PollResult, k: int): PollResult {
    if k in running then poll(running[k]) else StillRunning
  }

  /** The keys of `keys` whose process has exited, in order (the `completed` list). */
  function ExitedKeys(keys: seq<int>, running: map<int, Handle>, poll: Handle -> PollResult): (r: seq<int>)
    ensures |r| <= |keys|
    decreases |keys|
  {
    if keys == [] then []
    else
      var k := keys[|keys| - 1];
      ExitedKeys(keys[..|keys| - 1], running, poll) + (if PollOf(running, poll, k).Exited? then [k] else [])
  }

  /** `completed` holds exactly the keys whose process has exited. */
  lemma {:induction false} ExitedKeysMembers(keys: seq<int>, running: map<int, Handle>, poll: Handle -> PollResult)
    ensures forall k :: k in ExitedKeys(keys, running, poll) <==> k in keys && PollOf(running, poll, k).Exited?
    decreases |keys|
  {
    if keys != [] {
      var rest := keys[..|keys| - 1];
      ExitedKeysMembers(rest, running, poll);
      assert forall x :: x in keys <==> x in rest || x == keys[|keys| - 1];
    }
  }

  /** The update emitted for one key: one `failed` update for a non-zero exit, none otherwise. */
  function FailureOf(running: map<int, Handle>, poll: Handle -> PollResult, k: int): seq<Payload> {
    FailureFor(k, PollOf(running, poll, k))
  }

  /** The same for the result `r` of polling the process of task `k`. */
  function FailureFor(k: int, r: PollResult): seq<Payload> {
    match r
    case StillRunning => []
    case Exited(code, stderr) => if code == 0 then [] else [FailedUpdate(k, ExitError(code, stderr))]
  }

  /** The updates emitted while walking `keys`, in order. */
  function FailureUpdates(keys: seq<int>, running: map<int, Handle>, poll: Handle -> PollResult): seq<Payload>
    decreases |keys|
  {
    if keys == [] then []
    else FailureUpdates(keys[..|keys| - 1], running, poll) + FailureOf(running, poll, keys[|keys| - 1])
  }

  /** Polling one more key extends `completed` and the updates by that key's share. */
  lemma PollStep(keys: seq<int>, i: nat, running: map<int, Handle>, poll: Handle -> PollResult)
    requires i < |keys|
    ensures ExitedKeys(keys[..i + 1], running, poll) ==
            ExitedKeys(keys[..i], running, poll) + (if PollOf(running, poll, keys[i]).Exited? then [keys[i]] else [])
    ensures FailureUpdates(keys[..i + 1], running, poll) ==
            FailureUpdates(keys[..i], running, poll) + FailureOf(running, poll, keys[i])
  {
    assert keys[..i + 1][..i] == keys[..i];
  }

  /** Python's `del d[k]` on the key order: `k` leaves, the rest keep their order. */
  function Remove(s: seq<int>, k: int): (r: seq<int>)
    ensures |r| <= |s|
    decreases |s|
  {
    if s == [] then []
    else (if s[0] == k then [] else [s[0]]) + Remove(s[1..], k)
  }

  /** The handles of `keys` in order, as `cleanup` walks the table. */
  function HandlesOf(keys: seq<int>, running: map<int, Handle>): (r: seq<Handle>)
    ensures |r| <= |keys|
    decreases |keys|
  {
    if keys == [] then []
    else
      var k := keys[|keys| - 1];
      HandlesOf(keys[..|keys| - 1], running) + (if k in running then [running[k]] else [])
  }

  /** Walking the keys in order reaches the handle of every key. */
  lemma {:induction false} HandlesOfCover(keys: seq<int>, running: map<int, Handle>)
    ensures forall k :: k in keys && k in running ==> running[k] in HandlesOf(keys, running)
    decreases |keys|
  {
    if keys != [] {
      var rest := keys[..|keys| - 1];
      HandlesOfCover(rest, running);
      assert forall x :: x in keys ==> x in rest || x == keys[|keys| - 1];
    }
  }

  /** The keys whose process is still running. */
  function Survivors(running: map<int, Handle>, poll: Handle -> PollResult): set<int> {
    set k | k in running && poll(running[k]).StillRunning?
  }

  function Restrict(m: map<int, Handle>, keep: set<int>): (r: map<int, Handle>)
    ensures forall k :: k in r <==> k in m && k in keep
    ensures forall k :: k in r ==> r[k] == m[k]
  {
    map k | k in m && k in keep :: m[k]
  }

  /** The elements of `s` that are in `keep`, in order. */
  function Filter(s: seq<int>, keep: set<int>): (r: seq<int>)
    ensures |r| <= |s|
    decreases |s|
  {
    if s == [] then []
    else (if s[0] in keep then [s[0]] else []) + Filter(s[1..], keep)
  }

  lemma {:induction false} FilterMembers(s: seq<int>, keep: set<int>)
    ensures forall x :: x in Filter(s, keep) <==> x in s && x in keep
    decreases |s|
  {
    if s != [] {
      FilterMembers(s[1..], keep);
      assert forall x :: x in s <==> x == s[0] || x in s[1..];
    }
  }

  lemma {:induction false} FilterDistinct(s: seq<int>, keep: set<int>)
    requires Distinct(s)
    ensures Distinct(Filter(s, keep))
    decreases |s|
  {
    if s != [] {
      assert Distinct(s[1..]) by {
        forall i, j | 0 <= i < j < |s[1..]| ensures s[1..][i] != s[1..][j] {
          assert s[1..][i] == s[i + 1] && s[1..][j] == s[j + 1];
        }
      }
      FilterDistinct(s[1..], keep);
      FilterMembers(s[1..], keep);
      var r := Filter(s[1..], keep);
      if s[0] in keep {
        assert s[0] !in r;
        var f := [s[0]] + r;
        forall i, j | 0 <= i < j < |f| ensures f[i] != f[j] {
          if i > 0 {
            assert f[i] == r[i - 1] && f[j] == r[j - 1];
          } else {
            assert f[j] == r[j - 1];
          }
        }
      }
    }
  }

  /** `check_running_tasks`: drop exited processes, report the failed ones, keep the rest as they were. */
  function Reap(st: State, poll: Handle -> PollResult): State {
    var alive := Survivors(st.running, poll);
    st.(running := Restrict(st.running, alive),
        order := Filter(st.order, alive),
        updates := st.updates + FailureUpdates(st.order, st.running, poll))
  }

  lemma ReapPreservesValid(st: State, poll: Handle -> PollResult)
    requires Valid(st)
    ensures Valid(Reap(st, poll))
  {
    var alive := Survivors(st.running, poll);
    FilterDistinct(st.order, alive);
    FilterMembers(st.order, alive);
  }

  lemma {:induction false} FilterAll(s: seq<int>, keep: set<int>)
    requires forall x :: x in s ==> x in keep
    ensures Filter(s, keep) == s
    decreases |s|
  {
    if s != [] {
      var head := s[0];
      assert head in s;
      assert head in keep;
      assert forall x :: x in s[1..] ==> x in s;
      FilterAll(s[1..], keep);
      assert s == [head] + s[1..];
    }
  }

  lemma {:induction false} RemoveFilter(s: seq<int>, keep: set<int>, k: int)
    ensures Remove(Filter(s, keep), k) == Filter(s, keep - {k})
    decreases |s|
  {
    if s != [] {
      RemoveFilter(s[1..], keep, k);
      var head := if s[0] in keep then [s[0]] else [];
      RemoveAppend(head, Filter(s[1..], keep), k);
      if s[0] in keep {
        assert Remove(head, k) == (if s[0] == k then [] else [s[0]]) by {
          assert head[1..] == [];
        }
      }
    }
  }

  lemma {:induction false} RemoveAppend(a: seq<int>, b: seq<int>, k: int)
    ensures Remove(a + b, k) == Remove(a, k) + Remove(b, k)
    decreases |a|
  {
    if a == [] {
      assert a + b == b;
    } else {
      assert (a + b)[0] == a[0] && (a + b)[1..] == a[1..] + b;
      RemoveAppend(a[1..], b, k);
    }
  }

  /** The table after `del running_tasks[n]` for each `n` of `completed` in turn. */
  function DeleteMap(running: map<int, Handle>, completed: seq<int>): map<int, Handle>
    decreases |completed|
  {
    if completed == [] then running
    else DeleteMap(running, completed[..|completed| - 1]) - {completed[|completed| - 1]}
  }

  function DeleteOrder(order: seq<int>, completed: seq<int>): seq<int>
    decreases |completed|
  {
    if completed == [] then order
    else Remove(DeleteOrder(order, completed[..|completed| - 1]), completed[|completed| - 1])
  }

  function Kept(running: map<int, Handle>, completed: seq<int>): set<int> {
    set k | k in running && k !in completed
  }

  /** Deleting the completed keys one by one leaves the other entries, in their order. */
  lemma {:induction false} DeleteKeys(running: map<int, Handle>, order: seq<int>, completed: seq<int>)
    requires forall x :: x in order ==> x in running
    ensures DeleteMap(running, completed) == Restrict(running, Kept(running, completed))
    ensures DeleteOrder(order, completed) == Filter(order, Kept(running, completed))
    decreases |completed|
  {
    if completed == [] {
      assert Kept(running, completed) == running.Keys;
      FilterAll(order, running.Keys);
    } else {
      var rest := completed[..|completed| - 1];
      var x := completed[|completed| - 1];
      DeleteKeys(running, order, rest);
      assert forall y :: y in completed <==> y in rest || y == x;
      assert Kept(running, rest) - {x} == Kept(running, completed);
      RemoveFilter(order, Kept(running, rest), x);
    }
  }

  /** Deleting the keys that have exited, one by one, is what `Reap` does to the table. */
  lemma ReapByDeletion(running: map<int, Handle>, order: seq<int>, poll: Handle -> PollResult)
    requires ValidTable(running, order)
    ensures var completed := ExitedKeys(order, running, poll);
      && DeleteMap(running, completed) == Restrict(running, Survivors(running, poll))
      && DeleteOrder(order, completed) == Filter(order, Survivors(running, poll))
  {
    var completed := ExitedKeys(order, running, poll);
    DeleteKeys(running, order, completed);
    ExitedKeysMembers(order, running, poll);
    forall k
      ensures k in Kept(running, completed) <==> k in Survivors(running, poll)
    {
      if k in running {
        assert k in order;
        assert PollOf(running, poll, k) == poll(running[k]);
      }
    }
    assert Kept(running, completed) == Survivors(running, poll);
  }

  /** How many of `us` are about task `k`. */
  function CountFor(us: seq<Payload>, k: int): nat
    decreases |us|
  {
    if us == [] then 0
    else CountFor(us[..|us| - 1], k) + (if us[|us| - 1].displayNumber == k then 1 else 0)
  }

  lemma {:induction false} CountForAppend(a: seq<Payload>, b: seq<Payload>, k: int)
    ensures CountFor(a + b, k) == CountFor(a, k) + CountFor(b, k)
    decreases |b|
  {
    if b == [] {
      assert a + b == a;
    } else {
      assert (a + b)[..|a + b| - 1] == a + b[..|b| - 1];
      CountForAppend(a, b[..|b| - 1], k);
    }
  }

  /**
   * Reaping over distinct keys reports each task at most once: exactly one `failed` update,
   * with the exit code and the first 200 characters of stderr, for a process that exited
   * non-zero; none for exit code 0 or a process still running; every update is one of those.
   */
  lemma {:induction false} FailureUpdatesExact(keys: seq<int>, running: map<int, Handle>, poll: Handle -> PollResult, k: int)
    requires Distinct(keys)
    ensures var us := FailureUpdates(keys, running, poll);
      && CountFor(us, k) == (if k in keys && FailureOf(running, poll, k) != [] then 1 else 0)
      && (forall u :: u in us ==> exists j :: j in keys && FailureOf(running, poll, j) == [u])
    decreases |keys|
  {
    if keys != [] {
      var rest := keys[..|keys| - 1];
      var last := keys[|keys| - 1];
      assert Distinct(rest);
      assert last !in rest;
      FailureUpdatesExact(rest, running, poll, k);
      CountForAppend(FailureUpdates(rest, running, poll), FailureOf(running, poll, last), k);
      assert forall x :: x in keys <==> x in rest || x == last;
      var f := FailureOf(running, poll, last);
      assert CountFor(f, k) == (if k == last && f != [] then 1 else 0) by {
        if f != [] {
          assert f[..0] == [];
        }
      }
      forall u | u in FailureUpdates(keys, running, poll)
        ensures exists j :: j in keys && FailureOf(running, poll, j) == [u]
      {
        if u in FailureUpdates(rest, running, poll) {
          var j :| j in rest && FailureOf(running, poll, j) == [u];
          assert j in keys;
        } else {
          assert u in f;
          assert last in keys && f == [u];
        }
      }
    }
  }

  /**
   * `check_running_tasks` on a valid table: the table keeps exactly the still-running
   * entries with their handles and order; the new updates are one `failed` update per
   * non-zero exit and nothing else.
   */
  lemma ReapExact(st: State, poll: Handle -> PollResult, k: int)
    requires Valid(st)
    ensures var st' := Reap(st, poll);
      && (k in st'.running <==> k in st.running && poll(st.running[k]).StillRunning?)
      && (k in st'.running ==> st'.running[k] == st.running[k])
      && (forall x :: x in st'.order <==> x in st.order && x in st'.running)
      && st'.updates[..|st.updates|] == st.updates
      && CountFor(st'.updates[|st.updates|..], k) ==
         (if k in st.running && poll(st.running[k]).Exited? && poll(st.running[k]).code != 0 then 1 else 0)
      && st'.worktrees == st.worktrees && st'.gitCommands == st.gitCommands && st'.launches == st.launches
  {
    var us := FailureUpdates(st.order, st.running, poll);
    FailureUpdatesExact(st.order, st.running, poll, k);
    FilterMembers(st.order, Survivors(st.running, poll));
    assert (st.updates + us)[|st.updates|..] == us;
    assert (st.updates + us)[..|st.updates|] == st.updates;
  }

  /**
   * A failed update for a reaped task carries its exit code and then `stderr[:200]`: the
   * whole of stderr when it is shorter, its first 200 characters otherwise.
   */
  lemma ExitErrorShape(code: int, stderr: string)
    ensures var e := ExitError(code, stderr);
      var head := "Exit code " + IntToString(code) + ": ";
      && StartsWith(e, head)
      && e[|head|..] == stderr[..if |stderr| < 200 then |stderr| else 200]
      && |e| <= |head| + 200
  {
    var head := "Exit code " + IntToString(code) + ": ";
    var e := ExitError(code, stderr);
    assert e[..|head|] == head;
    assert e[|head|..] == Take(stderr, 200);
  }

  // ---------------------------------------------------------------- one tick of the main loop

  /** `for task in tasks: execute_task(task)`. */
  function ExecuteAll(st: State, cands: seq<Candidate>): State
    decreases |cands|
  {
    if cands == [] then st
    else
      var last := cands[|cands| - 1];
      ExecuteTask(ExecuteAll(st, cands[..|cands| - 1]), last.task, last.env)
  }

  /** One iteration of the main loop: reap first, then dispatch the fetched tasks in list order. */
  function Tick(st: State, poll: Handle -> PollResult, cands: seq<Candidate>): State {
    ExecuteAll(Reap(st, poll), cands)
  }

  lemma {:induction false} ExecuteAllPreservesValid(st: State, cands: seq<Candidate>)
    requires Valid(st)
    ensures Valid(ExecuteAll(st, cands))
    decreases |cands|
  {
    if cands != [] {
      ExecuteAllPreservesValid(st, cands[..|cands| - 1]);
      var last := cands[|cands| - 1];
      ExecutePreservesValid(ExecuteAll(st, cands[..|cands| - 1]), last.task, last.env);
    }
  }

  lemma TickPreservesValid(st: State, poll: Handle -> PollResult, cands: seq<Candidate>)
    requires Valid(st)
    ensures Valid(Tick(st, poll, cands))
  {
    ReapPreservesValid(st, poll);
    ExecuteAllPreservesValid(Reap(st, poll), cands);
  }

  /** The inputs of one tick: the poll results and the fetched tasks with their oracles. */
  datatype TickInput = TickInput(poll: Handle -> PollResult, cands: seq<Candidate>)

  function RunTicks(st: State, ticks: seq<TickInput>): State
    decreases |ticks|
  {
    if ticks == [] then st
    else
      var last := ticks[|ticks| - 1];
      Tick(RunTicks(st, ticks[..|ticks| - 1]), last.poll, last.cands)
  }

  /** Over any sequence of ticks the table never holds more than three processes. */
  lemma {:induction false} ConcurrencyBound(st: State, ticks: seq<TickInput>)
    requires Valid(st)
    ensures Valid(RunTicks(st, ticks))
    ensures |RunTicks(st, ticks).running| <= MaxConcurrentTasks
    decreases |ticks|
  {
    if ticks != [] {
      ConcurrencyBound(st, ticks[..|ticks| - 1]);
      var last := ticks[|ticks| - 1];
      TickPreservesValid(RunTicks(st, ticks[..|ticks| - 1]), last.poll, last.cands);
    }
    TableSize(RunTicks(st, ticks));
  }

  /**
   * Because a tick reaps before it dispatches, a task whose process has just exited can be
   * started again in the same tick when it is fetched first.
   */
  lemma ReapThenDispatch(st: State, poll: Handle -> PollResult, c: Candidate)
    requires Valid(st)
    requires DisplayNumberOf(c.task).Some? && DisplayNumberOf(c.task).value in st.running
    requires poll(st.running[DisplayNumberOf(c.task).value]).Exited?
    ensures Eligible(Reap(st, poll), c.task)
  {
    var n := DisplayNumberOf(c.task).value;
    var r := Reap(st, poll);
    TableSize(st);
    ReapPreservesValid(st, poll);
    TableSize(r);
    assert n in st.order;
    assert n !in r.order;
    assert |r.order| < |st.order| by {
      FilterShorter(st.order, Survivors(st.running, poll), n);
    }
  }

  lemma {:induction false} FilterShorter(s: seq<int>, keep: set<int>, x: int)
    requires x in s && x !in keep
    ensures |Filter(s, keep)| < |s|
    decreases |s|
  {
    if s[0] != x {
      FilterShorter(s[1..], keep, x);
    }
  }
}
