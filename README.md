# push-todo plugin: a verified model

This project models the core of the push-todo plugin for a coding agent. The plugin has
six parts:

- a background daemon that polls for queued tasks, gives each task its own git worktree
  `push-N` next to the working directory, and starts an agent process for it. At most
  three run at once. It reaps finished processes and reports their status.
- the session-start hook that counts a project's active tasks.
- the update checker.
- the release version bumper.
- the certainty analyzer that scores how clear a task description is.
- the terminal watcher that shows the daemon's state and, in follow mode, leaves once the
  work is done.

Everything outside the program is an input to the model: processes, git, the file system,
HTTP and the clock. Each input is either a value (what `git remote get-url` printed, which
HTTP outcome came back) or an oracle function (what `proc.poll()` returns for a handle).

Modules, one per concern:

- `Wrappers`, `Strings`: Option/Result, and the Python string operations the scripts use.
  These are `strip`, `split`, whitespace `split()`, `lower`, `startswith`, `in`, and
  `int()`/`str()` on integers, with their round trips.
- `Remote`: git remote URL normalisation. `NormalizeUrl` is the prefix loop with `break`.
  `DaemonGitRemote` and `CheckTasksGitRemote` are the two `get_git_remote` wrappers.
- `Config`: the two `get_api_key` versions and how they differ.
- `Workspace`: worktree and branch naming, and `create_worktree` over a set of existing
  paths.
- `Daemon`: the scheduler as a value-level state machine. The state is the running table,
  its dict insertion order, the worktrees, and the logs of status updates, git commands and
  agent launches. It has `ExecuteTask`, `Reap` (`check_running_tasks`) and `Tick` (one
  iteration of the main loop), with their properties.
- `Scheduling`: class `Scheduler`. It holds the same state in fields and updates them in
  place. `ExecuteTask`, `Dispatch`, `CheckRunningTasks` and `Tick` are proved to produce
  exactly the next state of the `Daemon` function of the same name (`Reap` for
  `CheckRunningTasks`). The step methods `UpdateTaskStatus`, `PollOne` and `DeleteTasks` are
  tied to `BuildPayload`, `FailureOf` and `DeleteMap`. `Cleanup` has no `Daemon` counterpart
  and is specified directly. It ends the daemon: every method that needs a running daemon
  requires `exitCode == None`.
- `CheckTasks`: the todo-to-cache mapping, HTTP error classification and the hook's
  output.
- `Versions`, `CheckUpdates`, `BumpVersion`: the version triples, the update decision and
  the bump rules.
- `Certainty`: the sub-checks, the accumulation in `analyze` (as methods with loops),
  clamping, banding, the question sort, the recommended action and `should_execute`.
- `Watch`: `format_duration`, the last-three window, the running/queued partition and the
  follow-mode loop.

Certainty scores are integer hundredths: base 50, clamp 0..100, thresholds 70 and 40.

## Model

| member | source | states |
|---|---|---|
| Daemon.DisplayNumberOf | plugins/push-todo/scripts/daemon.py:239-249 | the task number is `displayNumber` if truthy, else `display_number`; a missing, null or 0 number gives none |
| Daemon.ContentOf | plugins/push-todo/scripts/daemon.py:240-245 | the content falls back from `normalizedContent` to `normalized_content` to `summary` to "Work on this task", and is never empty |
| Daemon.BuildPayload | plugins/push-todo/scripts/daemon.py:153-160 | the payload always has the number and status; `summary` and `error` appear exactly when non-empty, unchanged |
| Daemon.ExecuteIneligible | plugins/push-todo/scripts/daemon.py:247-257 | a task with no number, one already running, or one arriving at a full table changes nothing: no update, no git command, no launch |
| Daemon.ExecuteEligible | plugins/push-todo/scripts/daemon.py:259-303 | an eligible task gets a `running` update first; then either a worktree failure (one `failed` update "Failed to create git worktree"), a spawn exception (one `failed` update with its text) or exactly one new table entry under its number; nothing else changes |
| Daemon.LaunchCommand | plugins/push-todo/scripts/daemon.py:269-294 | the command line is the seven words `claude`, `-p`, the prompt, `--allowedTools`, `Read,Edit,Write,Glob,Grep,Bash(git *)`, `--output-format`, `json`; the prompt opens with "Work on Push task #N:", a blank line and the content |
| Daemon.ExecutePreservesValid | plugins/push-todo/scripts/daemon.py:251-257 | `execute_task` keeps the table a dict with distinct keys in order and within the cap of 3 |
| Daemon.DuplicateInFetchSkipped | plugins/push-todo/scripts/daemon.py:251-253 | a second entry in the same fetch for a task the first entry started is skipped and changes nothing |
| Daemon.ExitedKeysMembers | plugins/push-todo/scripts/daemon.py:308-315 | the `completed` list holds exactly the keys whose poll returned an exit code |
| Daemon.FailureUpdatesExact | plugins/push-todo/scripts/daemon.py:310-325 | over distinct keys, a task exited non-zero gets exactly one `failed` update with its exit error; exit 0 or still running gets none; no other update is emitted |
| Daemon.ExitErrorShape | plugins/push-todo/scripts/daemon.py:324-325 | the error is "Exit code N: " followed by exactly `stderr[:200]`: all of stderr when shorter, its first 200 characters otherwise |
| Daemon.ReapByDeletion | plugins/push-todo/scripts/daemon.py:327-329 | deleting the completed keys one by one leaves exactly the still-running entries, in their order |
| Daemon.ReapExact | plugins/push-todo/scripts/daemon.py:306-329 | after reaping, a key stays, with its handle, exactly when its process is still running; the earlier updates are kept; the new ones hold exactly one update for each task that exited non-zero and none for any other; worktrees, git commands and launches are unchanged |
| Daemon.ReapPreservesValid | plugins/push-todo/scripts/daemon.py:306-329 | reaping keeps the table a valid dict within the cap |
| Daemon.HandlesOfCover | plugins/push-todo/scripts/daemon.py:339-341 | walking the table in order reaches the handle of every tracked task |
| Daemon.TickPreservesValid | plugins/push-todo/scripts/daemon.py:380-391 | one iteration (reap, then execute the fetched tasks in list order) keeps the table valid |
| Daemon.ConcurrencyBound | plugins/push-todo/scripts/daemon.py:34 | over any sequence of ticks the table never holds more than `MAX_CONCURRENT_TASKS` = 3 processes |
| Daemon.ReapThenDispatch | plugins/push-todo/scripts/daemon.py:383-391 | because reaping comes first, a task whose process just exited is eligible again in the same tick |
| Scheduling.Scheduler.constructor | plugins/push-todo/scripts/daemon.py:41 | the daemon starts with an empty table and empty logs; the worktrees already on disk are given |
| Scheduling.Scheduler.UpdateTaskStatus | plugins/push-todo/scripts/daemon.py:146-166 | appends exactly the payload `BuildPayload` describes to the update log and changes nothing else |
| Scheduling.Scheduler.CreateWorktree | plugins/push-todo/scripts/daemon.py:197-234 | the result, the new worktree set and the git commands run are those of `Workspace.CreateWorktree` |
| Scheduling.Scheduler.ExecuteTask | plugins/push-todo/scripts/daemon.py:237-303 | updates the fields in place to exactly `Daemon.ExecuteTask` of the old state and keeps the table valid |
| Scheduling.Scheduler.Dispatch | plugins/push-todo/scripts/daemon.py:259-303 | past the three tests: the `running` update, the worktree, the launch and the table entry or `failed` update are exactly `Daemon.Dispatch` |
| Scheduling.Scheduler.CheckRunningTasks | plugins/push-todo/scripts/daemon.py:306-329 | the poll loop (collecting `completed`, sending failure updates), then the delete loop, leave exactly `Daemon.Reap` of the old state |
| Scheduling.Scheduler.PollTasks | plugins/push-todo/scripts/daemon.py:308-325 | `completed` is the exited keys in table order and the updates sent are the failure updates of `Daemon.FailureUpdates`; the table is untouched |
| Scheduling.Scheduler.PollOne | plugins/push-todo/scripts/daemon.py:311-325 | reports whether the process exited, and sends one `failed` update exactly for a non-zero exit |
| Scheduling.Scheduler.DeleteTasks | plugins/push-todo/scripts/daemon.py:327-329 | `del running_tasks[n]` for each completed `n` in order, on the map and on its key order |
| Scheduling.Scheduler.Tick | plugins/push-todo/scripts/daemon.py:380-391 | only on a daemon that has not exited: reap, then execute each fetched task in list order; the new state is `Daemon.Tick`, and the table stays within the cap |
| Scheduling.Scheduler.Cleanup | plugins/push-todo/scripts/daemon.py:334-349 | terminates every tracked process in table order, removes the PID file and exits with code 0; after that no tick, execute or reap can be called |
| Workspace.BranchName | plugins/push-todo/scripts/daemon.py:199 | the branch is "push-" followed by the task number |
| Workspace.WorktreePath | plugins/push-todo/scripts/daemon.py:191-194 | the worktree sits in the parent of the working directory and is named after the branch |
| Workspace.Parent | plugins/push-todo/scripts/daemon.py:193-194 | `Path.parent` drops the last component; the root is its own parent |
| Workspace.WorktreeInjective | plugins/push-todo/scripts/daemon.py:191-199 | two tasks share a branch, or a worktree, exactly when they have the same number |
| Workspace.CreateWorktreeOutcome | plugins/push-todo/scripts/daemon.py:197-234 | success exactly when the path existed or a run exited 0; an existing path runs no git; the fallback runs only after a non-zero first exit; the path exists afterwards exactly on success; no other path changes |
| Workspace.CreateWorktreeIdempotent | plugins/push-todo/scripts/daemon.py:202-204 | after a successful creation, creating again succeeds without running git and changes nothing |
| Remote.NormalizeUrl | plugins/push-todo/scripts/daemon.py:93-107 | the prefix loop with `break`, the colon rewrite and the suffix removal compute `Normalize` |
| Remote.FirstPrefix | plugins/push-todo/scripts/daemon.py:94-97 | only the first matching prefix, in list order, is removed |
| Remote.ReplaceFirstColon | plugins/push-todo/scripts/daemon.py:100-101 | only the first `:` becomes `/` |
| Remote.DropGitSuffix | plugins/push-todo/scripts/daemon.py:104-105 | exactly one trailing ".git" is dropped |
| Remote.NoSchemeAfterColon | plugins/push-todo/scripts/daemon.py:100 | `host:path` with no other colon and no leading `//` in the path contains no "://", so the colon rewrite applies |
| Remote.DaemonGitRemote | plugins/push-todo/scripts/daemon.py:79-109 | a key exists exactly when git exited 0, and it is the normalised stripped URL (possibly empty) |
| Remote.CheckTasksGitRemote | plugins/push-todo/scripts/check_tasks.py:47-88 | a key exists exactly when git exited 0 with a non-blank URL, and it is the normalised stripped URL |
| Remote.GitRemotesAgree | plugins/push-todo/scripts/check_tasks.py:61-66 | the two `get_git_remote` versions agree except on a blank URL, where only the daemon returns a key |
| Remote.ScpFormNormalizes | plugins/push-todo/scripts/check_tasks.py:69 | `git@host:path.git` normalises to `host/path` |
| Remote.HttpsFormNormalizes | plugins/push-todo/scripts/check_tasks.py:70 | `https://host/path.git` normalises to `host/path` |
| Config.AfterFirstEquals | plugins/push-todo/scripts/daemon.py:72 | `split("=", 1)[1]` exists exactly when the line has an `=`, and is the text after the first one |
| Config.FirstKeyLine | plugins/push-todo/scripts/daemon.py:69-73 | the first export line, with no export line before it |
| Config.FirstNonEmptyKeyLine | plugins/push-todo/scripts/check_tasks.py:116-124 | the first export line whose unquoted value is non-empty, with no such line before it |
| Config.CheckTasksKeyFound | plugins/push-todo/scripts/check_tasks.py:106-135 | a key is found exactly when the environment or some export line has a non-empty one; a found key is non-empty; otherwise the "not configured" ValueError message is the result |
| Config.ApiKeyVersionsAgree | plugins/push-todo/scripts/daemon.py:60-76 | a non-empty daemon key is the key check_tasks.py finds; when check_tasks.py finds none, the daemon has none or an empty one |
| Config.EmptyValueDiffers | plugins/push-todo/scripts/daemon.py:71-73 | when the first export line has an empty value, the daemon returns "" while check_tasks.py goes on to later lines |
| CheckTasks.MapTodo | plugins/push-todo/scripts/check_tasks.py:163-173 | `summary` is the summary if truthy, else the title, with "No summary" only when the title key is absent; `content` is `normalizedContent`, else the summary, else ""; the remote is the argument; no project hint |
| CheckTasks.FetchMapsInOrder | plugins/push-todo/scripts/check_tasks.py:162-173 | one record per todo, in the same order, each mapped from its own todo |
| CheckTasks.FetchErrors | plugins/push-todo/scripts/check_tasks.py:148-183 | a missing key and a 401 are ValueErrors, a 404 is the empty list, other HTTP codes propagate, a URLError is "Network error: " and its reason |
| CheckTasks.MainOutput | plugins/push-todo/scripts/check_tasks.py:186-211 | exit 0 exactly when there is no project key or the fetch succeeded, and then stdout is one line holding the count (0 without a key); otherwise exit 1 with empty stdout and a message on stderr |
| CheckTasks.NoRemoteCountsZero | plugins/push-todo/scripts/check_tasks.py:194-197 | outside a repository the hook prints 0 and exits 0, whatever the key and the network do |
| CheckUpdates.ParseVersion | plugins/push-todo/scripts/check_updates.py:59-65 | fewer than three parts, or a first three parts that are not all integers, give (0,0,0); otherwise the first three integers |
| CheckUpdates.ExtraPartsIgnored | plugins/push-todo/scripts/check_updates.py:62-63 | appending more dot-separated parts to a three-part version gives the same triple |
| CheckUpdates.IsNewerOrder | plugins/push-todo/scripts/check_updates.py:68-70 | `is_newer` is irreflexive, asymmetric and transitive, and one of two different triples is newer |
| CheckUpdates.MalformedNeverNewer | plugins/push-todo/scripts/check_updates.py:63-70 | a malformed remote version is never newer than a local version without a minus sign |
| CheckUpdates.ParseVersionNonNegative | plugins/push-todo/scripts/check_updates.py:59-65 | without a minus sign every component of the triple is non-negative |
| CheckUpdates.AutoUpdate | plugins/push-todo/scripts/check_updates.py:124-125 | auto-update is on with the flag, or when the lower-cased variable (default "true") is not "false" |
| CheckUpdates.InstallationSource | plugins/push-todo/scripts/check_updates.py:102-113 | symlink before git before manual |
| CheckUpdates.DecideOutcome | plugins/push-todo/scripts/check_updates.py:128-173 | nothing is printed unless both versions are known and the remote is newer; a pull runs exactly with auto-update on and a symlink or git install; the "updated" line appears exactly when that pull exited 0, the two-line notice otherwise |
| Versions.NewerIsStrictOrder | plugins/push-todo/scripts/check_updates.py:70 | tuple comparison of triples is a strict total order |
| BumpVersion.Parse | scripts/bump-version.py:32-37 | anything but exactly three dot-separated parts is "Invalid version format"; with three parts the result is Ok exactly when all three are integers, and otherwise the first non-integer part from the left is named in int()'s error; success means three integer parts, taken in order |
| BumpVersion.ParseFormat | scripts/bump-version.py:32-42 | parsing a formatted version gives it back |
| BumpVersion.BumpVersion | scripts/bump-version.py:45-77 | the three outcomes: the parse error unchanged, or the formatted bump of the parsed version |
| BumpVersion.MajorPrecedence | scripts/bump-version.py:54-62 | `--major` gives (X+1).0.0 whatever `--minor` says; `--minor` gives X.(Y+1).0, or (X+1).0.0 when Y is 9 or more |
| BumpVersion.BumpIncreases | scripts/bump-version.py:45-77 | every bump is strictly newer than its input |
| BumpVersion.BumpKeepsDigits | scripts/bump-version.py:64-77 | minor and patch in 0..9 before a bump stay in 0..9 after it |
| BumpVersion.BumpRoundTrip | scripts/bump-version.py:45-77 | the written version parses back to the bumped triple, which is strictly newer than the input |
| BumpVersion.DocumentedExamples | scripts/bump-version.py:11-14 | 1.1.0 → 1.1.1, 1.1.9 → 1.2.0, 1.9.9 → 2.0.0 |
| Certainty.CombineTextWords | plugins/push-todo/scripts/certainty_analyzer.py:242-250 | the combined text starts with the content; its words are the content's, then the summary's, then the transcript's; with both extras absent or empty it is the content |
| Certainty.VerbCheckCases | plugins/push-todo/scripts/certainty_analyzer.py:252-281 | 0 for no words; +15 when the cleaned first word is a verb; +8 when another of the first five is; −10 when none of the first five is |
| Certainty.CheckActionVerbs | plugins/push-todo/scripts/certainty_analyzer.py:252-281 | the loop over the first five words computes `VerbCheck` |
| Certainty.MarkerCheckBounds | plugins/push-todo/scripts/certainty_analyzer.py:283-301 | for any marker list (the class's list in use): at most three reasons, each for a marker of the list present in the text; −10 per reason, so the total is in −30..0; 0 exactly when no marker is present |
| Certainty.CheckLowConfidenceMarkers | plugins/push-todo/scripts/certainty_analyzer.py:283-301 | the loop with its running total and `break` reports the first three markers present, in list order |
| Certainty.QuestionCheck | plugins/push-todo/scripts/certainty_analyzer.py:303-317 | a question pattern gives −15 and a priority-2 question; otherwise no question |
| Certainty.SpecificityCheck | plugins/push-todo/scripts/certainty_analyzer.py:319-343 | always a reason, never a question; the delta is the bucket of the match count |
| Certainty.SpecificityMonotone | plugins/push-todo/scripts/certainty_analyzer.py:326-343 | the buckets are −5, +10, +20 and never fall as matches grow |
| Certainty.ScopeCheck | plugins/push-todo/scripts/certainty_analyzer.py:345-373 | a broad term gives −15 and the priority-3 scope question; otherwise +10 for a clear scope or 0, with no question |
| Certainty.LengthCheck | plugins/push-todo/scripts/certainty_analyzer.py:375-402 | the bucket counts the words of the content only; a question of priority 4 exactly below 5 words |
| Certainty.LengthMonotone | plugins/push-todo/scripts/certainty_analyzer.py:383-402 | the buckets are −20, −5, 0, +10 and never fall as the word count grows |
| Certainty.AlternativesCheck | plugins/push-todo/scripts/certainty_analyzer.py:404-426 | alternatives give −15 and a priority-5 question; otherwise no question |
| Certainty.Clamp | plugins/push-todo/scripts/certainty_analyzer.py:217-218 | the score clamped to 0..100, unchanged inside it |
| Certainty.LevelOf | plugins/push-todo/scripts/certainty_analyzer.py:220-226 | high exactly at 70 or more, medium in 40..69, low below 40 |
| Certainty.RecommendedAction | plugins/push-todo/scripts/certainty_analyzer.py:428-438 | execute for high, execute_with_plan for medium, clarify for low with questions, skip_or_clarify for low without |
| Certainty.SortByPriorityCorrect | plugins/push-todo/scripts/certainty_analyzer.py:229 | the sort orders by descending priority and is a permutation |
| Certainty.Analyze | plugins/push-todo/scripts/certainty_analyzer.py:147-240 | running the checks in order, accumulating score, reasons and questions, then clamping, banding, sorting and recommending, gives `AnalyzeSpec` |
| Certainty.AnalysisScore | plugins/push-todo/scripts/certainty_analyzer.py:166-226 | the score is in 0..100 and is 50 plus the reasons' deltas, clamped; the level is its band; there are 1 to 9 reasons |
| Certainty.AnalysisQuestions | plugins/push-todo/scripts/certainty_analyzer.py:184-229 | at most four questions, sorted by descending priority, a permutation of those gathered, in the order a stable sort gives |
| Certainty.AnalysisRecommendation | plugins/push-todo/scripts/certainty_analyzer.py:217-232 | the recommendation as a function of the final score and whether any questions were asked |
| Certainty.AnalyzeCertainty | plugins/push-todo/scripts/certainty_analyzer.py:443-457 | the convenience function returns the analyzer's result |
| Certainty.ShouldExecuteDefault | plugins/push-todo/scripts/certainty_analyzer.py:460-476 | with the default threshold a task runs exactly when its level is not low, that is when the recommendation is execute or execute_with_plan |
| Watch.FormatDurationRoundTrip | plugins/push-todo/scripts/watch.py:50-61 | reading back the formatted duration gives the seconds under an hour, and from an hour on the seconds with the leftover seconds dropped |
| Watch.LastThree | plugins/push-todo/scripts/watch.py:148 | `completed[-3:]` is the last min(3, n) entries, in their original order |
| Watch.Partition | plugins/push-todo/scripts/watch.py:260-278 | running and queued are order-preserving subsequences holding exactly the tasks of that status, disjoint; both are empty ("No active tasks") exactly when no task has either status |
| Watch.NextCount | plugins/push-todo/scripts/watch.py:324-334 | no status leaves the counter alone, an empty task list adds one, tasks reset it to 0 |
| Watch.WatchLoop | plugins/push-todo/scripts/watch.py:316-347 | the follow loop (counter, exit, redraw only on change, sleep 0.5 s or 2 s) computes `Run` |
| Watch.RunInvariant | plugins/push-todo/scripts/watch.py:316-347 | the counter stays below 4 and never exceeds the number of empty polls; the loop exits only in follow mode with the counter at 4; it sleeps once per poll while running; no two consecutive redraws are equal; the last render is the last one drawn |
| Watch.FourEmptyPollsExit | plugins/push-todo/scripts/watch.py:324-331 | four consecutive polls with an empty task list end follow mode |
| Watch.FollowExit | plugins/push-todo/scripts/watch.py:324-331 | follow mode ends exactly when, at some poll, four polls have reported no active tasks since the last poll that reported some (polls with no status are skipped) |
| Watch.NoFollowNoExit | plugins/push-todo/scripts/watch.py:324 | without `--follow` the loop never leaves and never counts |

## Left out

- Network I/O is not modelled: `api_request`, `urlopen`, JSON, `fetch_queued_tasks` and `get_remote_version`. Responses and HTTP outcomes are inputs.
- Processes are not modelled. `subprocess.run`, `Popen`, `poll`, `terminate` and stderr reads become oracle values and the abstract handles they return. Agent processes do not run in parallel in the model.
- The daemon's lifecycle is left out: signal registration, `sys.exit`, the PID and log files, `time.sleep` and the infinite `while True`. One iteration is `Tick`. Shutdown is `Cleanup`, which records the terminated handles, the removed PID file and the exit code, after which no method that needs a running daemon can be called.
- Exceptions caught by the main loop's `except Exception` are not modelled. `KeyboardInterrupt` calling `cleanup` is modelled only as a separate `Cleanup` call.
- Log messages are not modelled. The update log holds the payloads `update_task_status` builds. Whether one is actually sent (`api_request` sends nothing without an API key) and whether the server accepts it (send errors are swallowed) is not modelled.
- `create_worktree`: a successful `git worktree add` is taken to create the path, and a failed one to leave it absent.
- The regex checks of the certainty analyzer are inputs (`Signals`): question patterns, specificity patterns, scope indicators and alternative patterns. The broad-term and marker substring tests are modelled.
- Float arithmetic in `analyze` is not modelled. It works in hundredths, and the 0.4/0.7 thresholds become 40/70. The float sums can land just off a threshold, and integers do not reproduce that.
- The marker loop's `total <= -0.3` test is modelled as `total <= -30`. It is reached after exactly three markers either way.
- `to_dict`, terminal rendering, ANSI codes and box drawing, and argparse are left out. `Watch.WatchLoop` takes each frame's rendered text as an input.
- `str.lower`, `str.split()` and `strip()` are limited to ASCII characters and ASCII whitespace. `int()` accepts surrounding whitespace, an optional sign and ASCII digits. Underscores and non-ASCII digits are not accepted.
- `daemon_health.ensure_daemon_running`, called by check_tasks.py's `main`, is not part of this model.
- daemon.py never writes the status file that watch.py reads, so no publisher of it is modelled. The watcher's polls are inputs.
- `check_updates`: `is_git_repo()` is one input value, although `main` calls it twice. The resolution of the symlinked install and the pull's working directory are left out. A pull that raises is treated like one that exits non-zero.
- `get_local_version`, `get_remote_version` and `git_pull`'s I/O are inputs.
- Certainty.SortByPriorityCorrect: stability is not stated for arbitrary questions. `Certainty.AnalysisQuestions` proves the exact order for the questions `analyze` gathers, whose priorities are distinct.
- Daemon.ReapThenDispatch: states only that the task becomes eligible again in the same tick, not what its dispatch then does (`Daemon.ExecuteEligible` covers that).
