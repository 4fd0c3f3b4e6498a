/** The background job table as a state machine: every critical section is one step, a
    process may exit at any time, and a kill is several steps with the lock free between. */
module Jobs {
  import opened Text

  const MAX_RUNNING_JOBS := 16
  const MAX_FINISHED_JOBS := 32

  datatype Status = Running | Exited(code: Option<int>) | Killed

  /** `id` is the number in the job's name `j<id>`. */
  datatype Job = Job(id: nat, command: string, startedAt: nat, endedAt: Option<nat>, status: Status, notified: bool)

  datatype Table = Table(jobs: seq<Job>, nextId: nat)

  /** What a critical section sees outside the table: which processes have exited, with
      which code (`None` for death by signal), and the time. */
  datatype Env = Env(exits: map<nat, Option<int>>, now: nat)

  // ---- one job ----

  /** `try_wait` a running job. */
  function Reap(env: Env, j: Job): Job {
    if j.status.Running? && j.id in env.exits
    then j.(status := Exited(env.exits[j.id]), endedAt := Some(if j.endedAt.Some? then j.endedAt.value else env.now))
    else j
  }

  /** `finalize_killed`: a clean exit keeps its code, anything else is recorded as killed. */
  function Finalize(env: Env, j: Job): Job {
    var r := Reap(env, j);
    if r.status.Exited? && r.status.code.Some? then r
    else r.(status := Killed, endedAt := Some(if r.endedAt.Some? then r.endedAt.value else env.now))
  }

  /** What closing a kill owes a job: the code its process exited with if there is one, else
      `Killed`; a time of death that stands if it had one; all else as it was. */
  predicate Closed(env: Env, was: Job, now: Job) {
    && now.id == was.id && now.command == was.command && now.startedAt == was.startedAt
    && now.endedAt == Some(if was.endedAt.Some? then was.endedAt.value else env.now)
    && now.status ==
      if was.status.Killed? then Killed
      else if was.id in env.exits && env.exits[was.id].Some? then Exited(env.exits[was.id])
      else Killed
  }

  /** A recorded exit is the process's own, and there is an end time exactly when it is over. */
  predicate RecordIsTrue(env: Env, j: Job) {
    && (j.status.Exited? ==> j.id in env.exits && env.exits[j.id] == j.status.code)
    && (j.endedAt.Some? <==> !j.status.Running?)
  }

  function Seen(j: Job): Job {
    if j.status.Running? then j else j.(notified := true)
  }

  /** What a critical section does to each job: reap them all, look at one, report the
      finished ones, poll one, or close a kill of one or of many. */
  datatype Pass = ReapAll | Look(id: nat) | Report | Poll(id: nat) | CloseKill(id: nat) | CloseKillAll(ids: set<nat>)

  function Passed(pass: Pass, env: Env, j: Job): Job {
    match pass
    case ReapAll => Reap(env, j)
    case Look(id) => if j.id == id then Seen(Reap(env, j)) else Reap(env, j)
    case Report => Seen(Reap(env, j))
    case Poll(id) => if j.id == id then Reap(env, j) else j
    case CloseKill(id) => if j.id == id then Finalize(env, j).(notified := true) else j
    case CloseKillAll(ids) => if j.id in ids then Finalize(env, j) else j
  }

  function PassAll(pass: Pass, env: Env, jobs: seq<Job>): (r: seq<Job>)
    ensures |r| == |jobs| && forall k :: 0 <= k < |r| ==> r[k] == Passed(pass, env, jobs[k])
  {
    seq(|jobs|, k requires 0 <= k < |jobs| => Passed(pass, env, jobs[k]))
  }

  // ---- counting and pruning ----

  function RunningCount(jobs: seq<Job>): (n: nat)
    ensures n <= |jobs|
  {
    if jobs == [] then 0 else (if jobs[0].status.Running? then 1 else 0) + RunningCount(jobs[1..])
  }

  function FinishedCount(jobs: seq<Job>): (n: nat)
    ensures n == |jobs| - RunningCount(jobs)
  {
    if jobs == [] then 0 else (if jobs[0].status.Running? then 0 else 1) + FinishedCount(jobs[1..])
  }

  /** Drop the first `n` finished jobs. */
  function DropFinished(jobs: seq<Job>, n: nat): seq<Job> {
    if jobs == [] then []
    else if n > 0 && !jobs[0].status.Running? then DropFinished(jobs[1..], n - 1)
    else [jobs[0]] + DropFinished(jobs[1..], n)
  }

  /** `prune_finished`. */
  function Pruned(jobs: seq<Job>): seq<Job> {
    if FinishedCount(jobs) <= MAX_FINISHED_JOBS then jobs
    else DropFinished(jobs, FinishedCount(jobs) - MAX_FINISHED_JOBS)
  }

  /** Every running job, and each finished one with fewer than 32 finished ones after it. */
  function RunningAndRecent(jobs: seq<Job>): seq<Job> {
    if jobs == [] then [] else
      (if jobs[0].status.Running? || FinishedCount(jobs[1..]) < MAX_FINISHED_JOBS then [jobs[0]] else [])
      + RunningAndRecent(jobs[1..])
  }

  lemma {:induction false} DropNothing(jobs: seq<Job>)
    ensures DropFinished(jobs, 0) == jobs
    ensures FinishedCount(jobs) <= MAX_FINISHED_JOBS ==> RunningAndRecent(jobs) == jobs
  {
    if jobs != [] {
      DropNothing(jobs[1..]);
      assert jobs == [jobs[0]] + jobs[1..];
    }
  }

  lemma {:induction false} DropFinishedKeepsRecent(jobs: seq<Job>)
    requires FinishedCount(jobs) >= MAX_FINISHED_JOBS
    ensures DropFinished(jobs, FinishedCount(jobs) - MAX_FINISHED_JOBS) == RunningAndRecent(jobs)
  {
    if jobs != [] {
      if FinishedCount(jobs) == MAX_FINISHED_JOBS {
        DropNothing(jobs);
      } else {
        DropFinishedKeepsRecent(jobs[1..]);
      }
    }
  }

  /** Pruning keeps every running job and exactly the 32 most recently spawned finished
      ones, in order. */
  lemma PrunedIsRunningAndRecent(jobs: seq<Job>)
    ensures Pruned(jobs) == RunningAndRecent(jobs)
    ensures RunningCount(Pruned(jobs)) == RunningCount(jobs)
    ensures FinishedCount(Pruned(jobs)) == if FinishedCount(jobs) <= MAX_FINISHED_JOBS then FinishedCount(jobs) else MAX_FINISHED_JOBS
  {
    DropNothing(jobs);
    if FinishedCount(jobs) > MAX_FINISHED_JOBS {
      DropFinishedKeepsRecent(jobs);
      DropFinishedCounts(jobs, FinishedCount(jobs) - MAX_FINISHED_JOBS);
    }
  }

  /** Which entries pruning keeps: the running, and those behind which fewer than 32 others
      have finished. */
  lemma {:induction false} RecentIff(jobs: seq<Job>, k: nat)
    requires k < |jobs| && forall a, b | 0 <= a < b < |jobs| :: jobs[a].id != jobs[b].id
    ensures jobs[k] in RunningAndRecent(jobs) <==>
      jobs[k].status.Running? || FinishedCount(jobs[k + 1..]) < 32
  {
    if k == 0 {
      RecentAreListed(jobs[1..], jobs[0]);
    } else {
      RecentIff(jobs[1..], k - 1);
      assert jobs[1..][k..] == jobs[k + 1..];
    }
  }

  lemma {:induction false} RecentAreListed(jobs: seq<Job>, j: Job)
    ensures j in RunningAndRecent(jobs) ==> exists k :: 0 <= k < |jobs| && jobs[k] == j
  {
    if jobs != [] {
      RecentAreListed(jobs[1..], j);
      if k :| 0 <= k < |jobs| - 1 && jobs[1..][k] == j { assert jobs[k + 1] == j; }
    }
  }

  lemma {:induction false} DropFinishedCounts(jobs: seq<Job>, n: nat)
    requires n <= FinishedCount(jobs)
    ensures RunningCount(DropFinished(jobs, n)) == RunningCount(jobs)
    ensures FinishedCount(DropFinished(jobs, n)) == FinishedCount(jobs) - n
  {
    if jobs != [] {
      if n > 0 && !jobs[0].status.Running? {
        DropFinishedCounts(jobs[1..], n - 1);
      } else {
        DropFinishedCounts(jobs[1..], n);
        var rest := DropFinished(jobs[1..], n);
        assert ([jobs[0]] + rest)[1..] == rest;
      }
    }
  }

  // ---- critical sections ----

  /** Spawning: reap, prune, refuse at 16 running, then start the process (`started`) and
      enter it under the next id. */
  function SpawnIn(t: Table, env: Env, command: string, started: bool): (r: (Table, bool))
  {
    var jobs := Pruned(PassAll(ReapAll, env, t.jobs));
    if RunningCount(jobs) >= MAX_RUNNING_JOBS || !started then (t.(jobs := jobs), false)
    else (Table(jobs + [Job(t.nextId, command, env.now, None, Running, false)], t.nextId + 1), true)
  }

  function PassIn(t: Table, env: Env, pass: Pass): Table {
    t.(jobs := PassAll(pass, env, t.jobs))
  }

  function IdsOf(jobs: seq<Job>): set<nat> {
    set j | j in jobs :: j.id
  }

  function RunningIds(jobs: seq<Job>): set<nat> {
    set j | j in jobs && j.status.Running? :: j.id
  }

  function FinishedIds(jobs: seq<Job>): set<nat> {
    set j | j in jobs && !j.status.Running? :: j.id
  }

  /** Finished jobs whose finish nobody has been told of, in table order. */
  function Unreported(jobs: seq<Job>): seq<nat> {
    if jobs == [] then []
    else (if !jobs[0].status.Running? && !jobs[0].notified then [jobs[0].id] else []) + Unreported(jobs[1..])
  }
}
