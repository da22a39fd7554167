/**
 * The task monitor (watch.py): how durations are written, which tasks the plain status
 * shows, and the polling loop of follow mode, which redraws only on change and exits once
 * the daemon has reported no active tasks four times with no report of active tasks in
 * between (a poll that finds no status neither counts nor resets). Reading the status file
 * and rendering are inputs: each poll is what was read and the text it rendered to.
 */
module Watch {
  import opened Wrappers
  import opened Strings

  // ---------------------------------------------------------------- format_duration

  /** `format_duration`: seconds below a minute, minutes and seconds below an hour, else hours and minutes. */
  function FormatDuration(seconds: int): string {
    if seconds < 60 then IntToString(seconds) + "s"
    else if seconds < 3600 then Amounts(seconds / 60, 'm', seconds % 60, 's')
    else Amounts(seconds / 3600, 'h', (seconds % 3600) / 60, 'm')
  }

  /** `f"{a}{u} {b}{v}" if b else f"{a}{u}"`. */
  function Amounts(a: int, u: char, b: int, v: char): string {
    var first := IntToString(a) + [u];
    if b != 0 then first + " " + (IntToString(b) + [v]) else first
  }

  function UnitSeconds(u: char): Option<int> {
    if u == 's' then Some(1) else if u == 'm' then Some(60) else if u == 'h' then Some(3600) else None
  }

  /** One space-separated part of a duration, a number followed by its unit, in seconds. */
  function PartSeconds(p: string): Option<int> {
    if p == [] then None
    else match (ParseInt(p[..|p| - 1]), UnitSeconds(p[|p| - 1]))
      case (Some(n), Some(u)) => Some(n * u)
      case _ => None
  }

  function PartsSeconds(parts: seq<string>): Option<int> {
    if parts == [] then Some(0)
    else match (PartSeconds(parts[0]), PartsSeconds(parts[1..]))
      case (Some(a), Some(b)) => Some(a + b)
      case _ => None
  }

  /** Reading a written duration back: the sum of its parts. */
  function ReadDuration(t: string): Option<int> {
    PartsSeconds(SplitOn(t, ' '))
  }

  lemma PartOf(n: int, u: char, k: int)
    requires UnitSeconds(u) == Some(k)
    ensures ' ' !in IntToString(n) + [u]
    ensures PartSeconds(IntToString(n) + [u]) == Some(n * k)
  {
    var p := IntToString(n) + [u];
    assert p[..|p| - 1] == IntToString(n);
    ParseIntToString(n);
    assert forall k :: 0 <= k < |IntToString(n)| ==> IntToString(n)[k] != ' ';
  }

  lemma SplitSingle(s: string)
    requires ' ' !in s
    ensures SplitOn(s, ' ') == [s]
  {
    SplitJoin([s], ' ');
  }

  /** A text without spaces is read as one part. */
  lemma ReadSingle(x: string, p: int)
    requires ' ' !in x && PartSeconds(x) == Some(p)
    ensures ReadDuration(x) == Some(p)
  {
    SplitSingle(x);
    assert [x][1..] == [];
    assert PartsSeconds([]) == Some(0);
  }

  /** Two space-free texts joined by a space are read as the sum of the two parts. */
  lemma ReadPair(x: string, y: string, p: int, q: int)
    requires ' ' !in x && ' ' !in y && PartSeconds(x) == Some(p) && PartSeconds(y) == Some(q)
    ensures ReadDuration(x + " " + y) == Some(p + q)
  {
    SplitSingle(x);
    SplitSingle(y);
    assert x + " " + y == x + [' '] + y;
    SplitOnAppend(x, y, ' ');
    var parts := SplitOn(x + " " + y, ' ');
    assert parts == [x, y];
    assert parts[1..] == [y] && [y][1..] == [];
    assert PartsSeconds([]) == Some(0);
    assert PartsSeconds([y]) == Some(q);
  }

  lemma ReadOne(n: int, u: char, k: int)
    requires UnitSeconds(u) == Some(k)
    ensures ReadDuration(IntToString(n) + [u]) == Some(n * k)
  {
    PartOf(n, u, k);
    ReadSingle(IntToString(n) + [u], n * k);
  }

  /**
   * Read back, a written duration gives the number of seconds, except that from an hour
   * on the leftover seconds are dropped.
   */
  lemma FormatDurationRoundTrip(s: int)
    ensures ReadDuration(FormatDuration(s)) == Some(if s < 3600 then s else s - s % 60)
  {
    if s < 60 {
      ReadOne(s, 's', 1);
    } else if s < 3600 {
      ReadMinutes(s);
    } else {
      ReadHours(s);
    }
  }

  /** From a minute to an hour: minutes, then the seconds when there are any. */
  lemma ReadMinutes(s: int)
    requires 60 <= s < 3600
    ensures ReadDuration(Amounts(s / 60, 'm', s % 60, 's')) == Some(s)
  {
    ReadMinutesSeconds(s / 60, s % 60);
  }

  /** From an hour on: hours, then the minutes when there are any; the seconds are dropped. */
  lemma ReadHours(s: int)
    requires s >= 3600
    ensures ReadDuration(Amounts(s / 3600, 'h', (s % 3600) / 60, 'm')) == Some(s - s % 60)
  {
    HourRemainder(s);
    ReadHoursMinutes(s / 3600, (s % 3600) / 60);
  }

  /** `a` minutes and `b` seconds written by `Amounts` read back as `60a + b` seconds. */
  lemma ReadMinutesSeconds(a: int, b: int)
    ensures ReadDuration(Amounts(a, 'm', b, 's')) == Some(a * 60 + b)
  {
    if b != 0 {
      PartOf(a, 'm', 60);
      PartOf(b, 's', 1);
      ReadMinutesAndSeconds(a, b);
    } else {
      ReadOne(a, 'm', 60);
    }
  }

  lemma ReadMinutesAndSeconds(a: int, b: int)
    requires ' ' !in IntToString(a) + "m" && ' ' !in IntToString(b) + "s"
    requires PartSeconds(IntToString(a) + "m") == Some(a * 60) && PartSeconds(IntToString(b) + "s") == Some(b)
    ensures ReadDuration((IntToString(a) + "m") + " " + (IntToString(b) + "s")) == Some(a * 60 + b)
  {
    ReadPair(IntToString(a) + "m", IntToString(b) + "s", a * 60, b);
  }

  /** `a` hours and `b` minutes written by `Amounts` read back as `3600a + 60b` seconds. */
  lemma ReadHoursMinutes(a: int, b: int)
    ensures ReadDuration(Amounts(a, 'h', b, 'm')) == Some(a * 3600 + b * 60)
  {
    if b != 0 {
      PartOf(a, 'h', 3600);
      PartOf(b, 'm', 60);
      ReadHoursAndMinutes(a, b);
    } else {
      ReadOne(a, 'h', 3600);
    }
  }

  lemma ReadHoursAndMinutes(a: int, b: int)
    requires ' ' !in IntToString(a) + "h" && ' ' !in IntToString(b) + "m"
    requires PartSeconds(IntToString(a) + "h") == Some(a * 3600) && PartSeconds(IntToString(b) + "m") == Some(b * 60)
    ensures ReadDuration((IntToString(a) + "h") + " " + (IntToString(b) + "m")) == Some(a * 3600 + b * 60)
  {
    ReadPair(IntToString(a) + "h", IntToString(b) + "m", a * 3600, b * 60);
  }

  lemma HourRemainder(s: int)
    ensures (s % 3600) % 60 == s % 60
  {
    var q := s / 3600;
    assert s == q * 3600 + s % 3600;
    assert q * 3600 == (q * 60) * 60;
    assert (s - s % 3600) % 60 == 0;
  }

  // ---------------------------------------------------------------- the plain status

  /** `completed[-3:]`: the last three entries, or all of them when there are fewer. */
  function LastThree<T>(items: seq<T>): (r: seq<T>)
    ensures |r| == if |items| < 3 then |items| else 3
    ensures r == items[|items| - |r|..]
  {
    if |items| <= 3 then items else items[|items| - 3..]
  }

  /** One entry of `active_tasks`; only its status decides where it is listed. */
  datatype ActiveTask = ActiveTask(displayNumber: Option<int>, status: Option<string>)

  /** `[t for t in tasks if t.get("status") == status]`. */
  function WithStatus(tasks: seq<ActiveTask>, status: string): seq<ActiveTask> {
    if tasks == [] then []
    else (if tasks[0].status == Some(status) then [tasks[0]] else []) + WithStatus(tasks[1..], status)
  }

  function Running(tasks: seq<ActiveTask>): seq<ActiveTask> { WithStatus(tasks, "running") }

  function Queued(tasks: seq<ActiveTask>): seq<ActiveTask> { WithStatus(tasks, "queued") }

  /** `a` is `b` with some entries left out, the rest in the same order. */
  predicate Subsequence<T(==)>(a: seq<T>, b: seq<T>)
    decreases |b|
  {
    a == [] || (b != [] && ((a[0] == b[0] && Subsequence(a[1..], b[1..])) || Subsequence(a, b[1..])))
  }

  /** The tasks with a status are exactly those of the list with it, in list order. */
  lemma {:induction false} WithStatusMeaning(tasks: seq<ActiveTask>, status: string)
    ensures forall t :: t in WithStatus(tasks, status) <==> t in tasks && t.status == Some(status)
    ensures Subsequence(WithStatus(tasks, status), tasks)
    ensures |WithStatus(tasks, status)| <= |tasks|
  {
    if tasks != [] {
      WithStatusMeaning(tasks[1..], status);
      var rest := WithStatus(tasks[1..], status);
      assert forall t :: t in tasks <==> t == tasks[0] || t in tasks[1..] by {
        assert tasks == [tasks[0]] + tasks[1..];
      }
      if tasks[0].status == Some(status) {
        var r := [tasks[0]] + rest;
        assert WithStatus(tasks, status) == r;
        assert r[0] == tasks[0] && r[1..] == rest;
        assert forall t :: t in r <==> t == tasks[0] || t in rest;
      } else {
        assert WithStatus(tasks, status) == rest;
        SubsequenceLonger(rest, tasks);
      }
    }
  }

  lemma SubsequenceLonger<T>(a: seq<T>, b: seq<T>)
    requires b != [] && Subsequence(a, b[1..])
    ensures Subsequence(a, b)
  {
  }

  /**
   * The running and queued lists partition the tasks with those two statuses, keep list
   * order and share no task; "No active tasks" is shown exactly when no task has either.
   */
  lemma Partition(tasks: seq<ActiveTask>)
    ensures Subsequence(Running(tasks), tasks) && Subsequence(Queued(tasks), tasks)
    ensures forall t :: t in Running(tasks) <==> t in tasks && t.status == Some("running")
    ensures forall t :: t in Queued(tasks) <==> t in tasks && t.status == Some("queued")
    ensures forall t :: t in Running(tasks) ==> t !in Queued(tasks)
    ensures (Running(tasks) == [] && Queued(tasks) == []) <==>
            forall t :: t in tasks ==> t.status != Some("running") && t.status != Some("queued")
  {
    WithStatusMeaning(tasks, "running");
    WithStatusMeaning(tasks, "queued");
    assert "running" != "queued" by {
      assert "running"[0] != "queued"[0];
    }
    var r, q := Running(tasks), Queued(tasks);
    if r != [] {
      assert r[0] in r;
    }
    if q != [] {
      assert q[0] in q;
    }
  }

  // ---------------------------------------------------------------- the follow loop

  /** What one `read_status` gave: no (or an empty) status, or a status with this many active tasks. */
  datatype Poll = Offline | Online(activeCount: nat)

  /** One iteration's input: the poll and the text `render` produced for it. */
  datatype Frame = Frame(poll: Poll, output: string)

  const EmptyPollsToExit: nat := 4

  /** The `no_task_count` update of follow mode. */
  function NextCount(count: nat, p: Poll): (r: nat)
    ensures p.Offline? ==> r == count
    ensures p.Online? && p.activeCount == 0 ==> r == count + 1
    ensures p.Online? && p.activeCount > 0 ==> r == 0
  {
    match p
    case Offline => count
    case Online(n) => if n == 0 then count + 1 else 0
  }

  /** The sleep after a poll, in milliseconds: 500 while the daemon reports, 2000 otherwise. */
  function Interval(p: Poll): nat {
    if p.Online? then 500 else 2000
  }

  /** The loop's variables: the counter, the last frame drawn, what was drawn, the sleeps, and whether it returned. */
  datatype Watcher = Watcher(count: nat, last: string, drawn: seq<string>, sleeps: seq<nat>, exited: bool)

  const Start: Watcher := Watcher(0, "", [], [], false)

  /** One iteration of the loop of `main`. */
  function Step(w: Watcher, f: Frame, follow: bool): Watcher {
    if w.exited then w
    else
      var count := if follow then NextCount(w.count, f.poll) else w.count;
      if follow && f.poll == Online(0) && count >= EmptyPollsToExit then w.(count := count, exited := true)
      else if f.output != w.last then Watcher(count, f.output, w.drawn + [f.output], w.sleeps + [Interval(f.poll)], false)
      else Watcher(count, w.last, w.drawn, w.sleeps + [Interval(f.poll)], false)
  }

  /** The loop over a finite run of polls. */
  function Run(frames: seq<Frame>, follow: bool): Watcher {
    if frames == [] then Start else Step(Run(frames[..|frames| - 1], follow), frames[|frames| - 1], follow)
  }

  /** One more poll is one more `Step`. */
  lemma RunStep(frames: seq<Frame>, i: nat, follow: bool)
    requires i < |frames|
    ensures Run(frames[..i + 1], follow) == Step(Run(frames[..i], follow), frames[i], follow)
  {
    assert frames[..i + 1][..i] == frames[..i];
  }

  lemma {:induction false} RunAfterExit(frames: seq<Frame>, follow: bool, k: nat)
    requires k <= |frames| && Run(frames[..k], follow).exited
    ensures Run(frames, follow) == Run(frames[..k], follow)
    decreases |frames| - k
  {
    if k < |frames| {
      var init := frames[..|frames| - 1];
      assert init[..k] == frames[..k];
      RunAfterExit(init, follow, k);
    } else {
      assert frames[..k] == frames;
    }
  }

  /** The polling loop of `main`, over the polls it gets before being interrupted. */
  method WatchLoop(frames: seq<Frame>, follow: bool) returns (w: Watcher)
    ensures w == Run(frames, follow)
  {
    var lastRender := "";
    var noTaskCount: nat := 0;
    var drawn: seq<string> := [];
    var sleeps: seq<nat> := [];
    var i := 0;
    while i < |frames|
      invariant 0 <= i <= |frames|
      invariant Run(frames[..i], follow) == Watcher(noTaskCount, lastRender, drawn, sleeps, false)
    {
      var f := frames[i];
      RunStep(frames, i, follow);
      if follow && f.poll.Online? {
        if f.poll.activeCount == 0 {
          noTaskCount := noTaskCount + 1;
          if noTaskCount >= EmptyPollsToExit {
            w := Watcher(noTaskCount, lastRender, drawn, sleeps, true);
            RunAfterExit(frames, follow, i + 1);
            return;
          }
        } else {
          noTaskCount := 0;
        }
      }
      if f.output != lastRender {
        drawn := drawn + [f.output];
        lastRender := f.output;
      }
      sleeps := sleeps + [Interval(f.poll)];
      i := i + 1;
    }
    assert frames[..i] == frames;
    w := Watcher(noTaskCount, lastRender, drawn, sleeps, false);
  }

  /** The number of polls that reported a status with no active tasks. */
  function EmptyPolls(frames: seq<Frame>): nat {
    if frames == [] then 0
    else EmptyPolls(frames[..|frames| - 1]) + (if frames[|frames| - 1].poll == Online(0) then 1 else 0)
  }

  /**
   * What the loop keeps: the counter never passes 4 and never exceeds the number of empty
   * polls; it exits only in follow mode, and then the counter is exactly 4; one sleep per
   * poll that did not exit; consecutive redraws differ, and the last one is what is on screen.
   */
  lemma {:induction false} RunInvariant(frames: seq<Frame>, follow: bool)
    ensures var w := Run(frames, follow);
      && w.count <= EmptyPollsToExit && w.count <= EmptyPolls(frames)
      && (w.exited ==> follow && w.count == EmptyPollsToExit)
      && (!w.exited ==> |w.sleeps| == |frames| && w.count < EmptyPollsToExit)
      && (forall k :: 0 <= k < |w.sleeps| ==> w.sleeps[k] in {500, 2000})
      && (forall k :: 0 < k < |w.drawn| ==> w.drawn[k] != w.drawn[k - 1])
      && (w.drawn == [] ==> w.last == "")
      && (w.drawn != [] ==> w.last == w.drawn[|w.drawn| - 1])
  {
    if frames != [] {
      RunInvariant(frames[..|frames| - 1], follow);
    }
  }

  /** In follow mode, four polls in a row that report no active tasks end the loop. */
  lemma {:induction false} FourEmptyPollsExit(frames: seq<Frame>, j: nat)
    requires j + 4 <= |frames|
    requires forall k :: j <= k < j + 4 ==> frames[k].poll == Online(0)
    ensures Run(frames, true).exited
  {
    var e := j + 4;
    CountAfterEmpty(frames, j, 4);
    RunInvariant(frames[..e], true);
    RunAfterExit(frames, true, e);
  }

  /** Each empty poll of a run of them raises the counter by one unless the loop exits. */
  lemma {:induction false} CountAfterEmpty(frames: seq<Frame>, j: nat, n: nat)
    requires j + n <= |frames| && n <= 4
    requires forall k :: j <= k < j + n ==> frames[k].poll == Online(0)
    ensures Run(frames[..j + n], true).exited || Run(frames[..j + n], true).count >= n
    decreases n
  {
    if n > 0 {
      CountAfterEmpty(frames, j, n - 1);
      var pre := frames[..j + n];
      assert pre[..|pre| - 1] == frames[..j + n - 1];
      assert pre[|pre| - 1] == frames[j + n - 1];
    }
  }

  /**
   * The number of polls reporting no active tasks since the last poll that reported some;
   * polls that found no status are skipped.
   */
  function EmptySinceBusy(frames: seq<Frame>): nat {
    if frames == [] then 0
    else
      var rest := EmptySinceBusy(frames[..|frames| - 1]);
      match frames[|frames| - 1].poll
      case Offline => rest
      case Online(n) => if n == 0 then rest + 1 else 0
  }

  /**
   * Follow mode ends exactly when, at some poll, four polls have reported no active tasks
   * since the last one that reported some.
   */
  lemma FollowExit(frames: seq<Frame>)
    ensures Run(frames, true).exited <==>
            exists e :: 0 <= e <= |frames| && EmptySinceBusy(frames[..e]) >= EmptyPollsToExit
  {
    FollowCount(frames);
  }

  /** Until it exits the follow loop's counter is `EmptySinceBusy`, which has stayed below 4. */
  lemma {:induction false} FollowCount(frames: seq<Frame>)
    ensures !Run(frames, true).exited ==>
            && Run(frames, true).count == EmptySinceBusy(frames)
            && forall e :: 0 <= e <= |frames| ==> EmptySinceBusy(frames[..e]) < EmptyPollsToExit
    ensures Run(frames, true).exited ==>
            exists e :: 0 <= e <= |frames| && EmptySinceBusy(frames[..e]) >= EmptyPollsToExit
  {
    if frames != [] {
      var init := frames[..|frames| - 1];
      FollowCount(init);
      assert forall e :: 0 <= e <= |init| ==> frames[..e] == init[..e];
      assert frames[..|frames|] == frames;
    }
  }

  /** Without follow mode the loop never ends by itself. */
  lemma {:induction false} NoFollowNoExit(frames: seq<Frame>)
    ensures !Run(frames, false).exited && Run(frames, false).count == 0
  {
    if frames != [] {
      NoFollowNoExit(frames[..|frames| - 1]);
    }
  }
}
