/** Every interleaving of the job table's operations with each other and with process
    exits: what is always true, and what can never change back. */
module JobRuns {
  import opened Text
  import opened Jobs

  /** A kill between its first and its last critical section: of one job, or of all that ran. */
  datatype Kill = KillOne(id: nat) | KillMany(ids: set<nat>)

  /** The model being told that a job has finished. */
  datatype Notice = Observed(id: nat) | Drained(id: nat)

  /** `signalled`: ids sent the first signal, each while running. `told`: notices so far. */
  datatype World = World(table: Table, env: Env, kills: seq<Kill>, signalled: set<nat>, told: seq<Notice>)

  const START := World(Table([], 1), Env(map[], 0), [], {}, [])

  datatype Step =
    | Tick(ticks: nat)
    | ProcessExits(id: nat, code: Option<int>)
    | Spawn(command: string, started: bool)
    | Check(id: nat)
    | Drain
    | Count
    | KillBegins(id: nat)
    | KillPolls(id: nat)
    | KillEnds(k: nat)
    | KillAllBegins
    | KillAllEnds(k: nat)

  predicate Enabled(w: World, s: Step) {
    match s
    case ProcessExits(id, _) => id < w.table.nextId && id !in w.env.exits
    case KillEnds(k) => k < |w.kills| && w.kills[k].KillOne?
    case KillAllEnds(k) => k < |w.kills| && w.kills[k].KillMany?
    case _ => true
  }

  function DrainedAll(ids: seq<nat>): (r: seq<Notice>)
    ensures |r| == |ids| && forall k :: 0 <= k < |r| ==> r[k] == Drained(ids[k])
  {
    seq(|ids|, k requires 0 <= k < |ids| => Drained(ids[k]))
  }

  function Next(w: World, s: Step): World
    requires Enabled(w, s)
  {
    match s
    case Tick(ticks) => w.(env := w.env.(now := w.env.now + ticks))
    case ProcessExits(id, code) => w.(env := w.env.(exits := w.env.exits[id := code]))
    case Spawn(command, started) => w.(table := SpawnIn(w.table, w.env, command, started).0)
    case Check(id) => Looked(w, id)
    case Drain =>
      var reaped := PassAll(ReapAll, w.env, w.table.jobs);
      w.(table := PassIn(w.table, w.env, Report), told := w.told + DrainedAll(Unreported(reaped)))
    case Count => w.(table := PassIn(w.table, w.env, ReapAll))
    case KillBegins(id) =>
      var looked := Looked(w, id);
      if id in RunningIds(looked.table.jobs)
      then looked.(kills := w.kills + [KillOne(id)], signalled := w.signalled + {id}) else looked
    case KillPolls(id) => w.(table := PassIn(w.table, w.env, Poll(id)))
    case KillEnds(k) =>
      var id := w.kills[k].id;
      w.(table := PassIn(w.table, w.env, CloseKill(id)), kills := w.kills[..k] + w.kills[k + 1..],
         told := w.told + [Observed(id)])
    case KillAllBegins =>
      var reaped := PassIn(w.table, w.env, ReapAll);
      var running := RunningIds(reaped.jobs);
      if running == {} then w.(table := reaped)
      else w.(table := reaped, kills := w.kills + [KillMany(running)], signalled := w.signalled + running)
    case KillAllEnds(k) =>
      w.(table := PassIn(w.table, w.env, CloseKillAll(w.kills[k].ids)), kills := w.kills[..k] + w.kills[k + 1..])
  }

  /** Reap all and look at one job; its finish, if it has finished, is then known. */
  function Looked(w: World, id: nat): World {
    var table := PassIn(w.table, w.env, Look(id));
    w.(table := table, told := w.told + if id in FinishedIds(table.jobs) then [Observed(id)] else [])
  }

  // ---- the table invariant ----

  predicate Ascending(t: Table) {
    (forall a, b | 0 <= a < b < |t.jobs| :: t.jobs[a].id < t.jobs[b].id)
    && forall a | 0 <= a < |t.jobs| :: t.jobs[a].id < t.nextId
  }

  predicate Bounded(t: Table) {
    RunningCount(t.jobs) <= 16 && |t.jobs| <= 16 + 32
  }

  /** One job's record fits the world: an end time exactly when it is not running, the
      process's own exit code, and `Killed` only if it was signalled. */
  predicate Truthful(env: Env, signalled: set<nat>, j: Job) {
    && (j.endedAt.Some? <==> !j.status.Running?)
    && (j.status.Exited? ==> j.id in env.exits && env.exits[j.id] == j.status.code)
    && (j.status.Killed? ==> j.id in signalled)
  }

  function KillIds(k: Kill): set<nat> {
    match k case KillOne(id) => {id} case KillMany(ids) => ids
  }

  /** Nothing is told of a job before it is marked as told. */
  predicate ToldIsMarked(w: World) {
    && (forall n | n in w.told :: n.id < w.table.nextId)
    && (forall j | j in w.table.jobs && !j.notified :: forall n | n in w.told :: n.id != j.id)
  }

  /** Draining reports a job at most once, and never after its finish was told any other way. */
  predicate DrainsOnce(told: seq<Notice>) {
    forall a, b | 0 <= a < b < |told| && told[b].Drained? :: told[a].id != told[b].id
  }

  ghost predicate Inv(w: World) {
    && Ascending(w.table) && Bounded(w.table)
    && (forall j | j in w.table.jobs :: Truthful(w.env, w.signalled, j))
    && (forall k | k in w.kills :: KillIds(k) <= w.signalled)
    && (forall id | id in w.signalled || id in w.env.exits :: id < w.table.nextId)
    && ToldIsMarked(w) && DrainsOnce(w.told)
  }

  // ---- a pass over the jobs ----

  lemma PassedKeepsId(pass: Pass, env: Env, j: Job)
    ensures Passed(pass, env, j).id == j.id
    ensures Passed(pass, env, j).status.Running? ==> j.status.Running?
    ensures j.notified ==> Passed(pass, env, j).notified
  {
  }

  lemma {:induction false} PassKeepsBounds(pass: Pass, env: Env, jobs: seq<Job>)
    ensures RunningCount(PassAll(pass, env, jobs)) <= RunningCount(jobs)
  {
    hide Passed;
    if jobs != [] {
      PassedKeepsId(pass, env, jobs[0]);
      assert PassAll(pass, env, jobs)[1..] == PassAll(pass, env, jobs[1..]);
      PassKeepsBounds(pass, env, jobs[1..]);
    }
  }

  lemma PassKeepsTable(pass: Pass, env: Env, t: Table)
    requires Ascending(t) && Bounded(t)
    ensures Ascending(PassIn(t, env, pass)) && Bounded(PassIn(t, env, pass))
  {
    hide Passed, RunningCount;
    PassKeepsBounds(pass, env, t.jobs);
    forall a | 0 <= a < |t.jobs| ensures PassAll(pass, env, t.jobs)[a].id == t.jobs[a].id {
      PassedKeepsId(pass, env, t.jobs[a]);
    }
  }

  /** The ids a pass may mark as killed. */
  function Closes(pass: Pass): set<nat> {
    match pass case CloseKill(id) => {id} case CloseKillAll(ids) => ids case _ => {}
  }

  lemma PassedIsTruthful(pass: Pass, env: Env, signalled: set<nat>, j: Job)
    requires Truthful(env, signalled, j) && Closes(pass) <= signalled
    ensures Truthful(env, signalled, Passed(pass, env, j))
  {
  }

  // ---- pruning and spawning ----

  lemma {:induction false} RecentAreSome(jobs: seq<Job>)
    ensures forall j | j in RunningAndRecent(jobs) :: j in jobs
    ensures |RunningAndRecent(jobs)| <= |jobs|
  {
    if jobs != [] { RecentAreSome(jobs[1..]); }
  }

  lemma {:induction false} RecentKeepsOrder(jobs: seq<Job>)
    requires forall a, b | 0 <= a < b < |jobs| :: jobs[a].id < jobs[b].id
    ensures forall a, b | 0 <= a < b < |RunningAndRecent(jobs)| :: RunningAndRecent(jobs)[a].id < RunningAndRecent(jobs)[b].id
  {
    if jobs != [] {
      var rest := RunningAndRecent(jobs[1..]);
      RecentKeepsOrder(jobs[1..]);
      RecentAreSome(jobs[1..]);
      forall b | 0 <= b < |rest| ensures jobs[0].id < rest[b].id {
        assert rest[b] in jobs[1..];
        var k :| 0 <= k < |jobs| - 1 && jobs[1..][k] == rest[b];
      }
    }
  }

  lemma PrunedTable(t: Table, env: Env) returns (jobs: seq<Job>)
    requires Ascending(t) && Bounded(t)
    ensures jobs == Pruned(PassAll(ReapAll, env, t.jobs))
    ensures Ascending(t.(jobs := jobs)) && Bounded(t.(jobs := jobs)) && FinishedCount(jobs) <= MAX_FINISHED_JOBS
    ensures forall j | j in jobs :: j in PassAll(ReapAll, env, t.jobs)
  {
    hide Passed, RunningAndRecent, Pruned, RunningCount, FinishedCount;
    var reaped := PassAll(ReapAll, env, t.jobs);
    PassKeepsTable(ReapAll, env, t);
    jobs := Pruned(reaped);
    PrunedIsRunningAndRecent(reaped);
    RecentAreSome(reaped);
    RecentKeepsOrder(reaped);
    forall a | 0 <= a < |jobs| ensures jobs[a].id < t.nextId {
      assert jobs[a] in reaped;
    }
  }

  lemma {:induction false} RunningCountSnoc(jobs: seq<Job>, j: Job)
    ensures RunningCount(jobs + [j]) == RunningCount(jobs) + if j.status.Running? then 1 else 0
  {
    if jobs == [] {
      assert jobs + [j] == [j];
      assert RunningCount([j]) == (if j.status.Running? then 1 else 0) + RunningCount([j][1..]);
    } else {
      assert (jobs + [j])[0] == jobs[0] && (jobs + [j])[1..] == jobs[1..] + [j];
      RunningCountSnoc(jobs[1..], j);
    }
  }

  lemma SpawnKeepsTable(t: Table, env: Env, command: string, started: bool)
    requires Ascending(t) && Bounded(t)
    ensures var after := SpawnIn(t, env, command, started).0;
      Ascending(after) && Bounded(after) && t.nextId <= after.nextId
  {
    hide Passed, Pruned, RunningCount, FinishedCount;
    var jobs := PrunedTable(t, env);
    RunningCountSnoc(jobs, Job(t.nextId, command, env.now, None, Running, false));
  }

  // ---- every step keeps the invariant ----

  /** The pass a step makes over the jobs; a spawn reaps before it prunes. */
  function PassOf(w: World, s: Step): Option<Pass>
    requires Enabled(w, s)
  {
    match s
    case Tick(_) => None
    case ProcessExits(_, _) => None
    case Spawn(_, _) => None
    case Check(id) => Some(Look(id))
    case Drain => Some(Report)
    case Count => Some(ReapAll)
    case KillBegins(id) => Some(Look(id))
    case KillPolls(id) => Some(Poll(id))
    case KillEnds(k) => Some(CloseKill(w.kills[k].id))
    case KillAllBegins => Some(ReapAll)
    case KillAllEnds(k) => Some(CloseKillAll(w.kills[k].ids))
  }

  lemma NextTable(w: World, s: Step)
    requires Enabled(w, s)
    ensures !s.Spawn? ==> Next(w, s).table == match PassOf(w, s) case Some(p) => PassIn(w.table, w.env, p) case None => w.table
  {
    hide PassAll, Passed, RunningIds, FinishedIds, Unreported;
  }

  lemma NextSpawn(w: World, s: Step)
    requires Enabled(w, s) && s.Spawn?
    ensures Next(w, s) == w.(table := SpawnIn(w.table, w.env, s.command, s.started).0)
  {
  }

  lemma StepKeepsTable(w: World, s: Step)
    requires Enabled(w, s) && Ascending(w.table) && Bounded(w.table)
    ensures Ascending(Next(w, s).table) && Bounded(Next(w, s).table) && w.table.nextId <= Next(w, s).table.nextId
  {
    hide Ascending, Bounded, PassAll, Next, PassOf, SpawnIn;
    NextTable(w, s);
    if s.Spawn? { NextSpawn(w, s); }
    var pass := PassOf(w, s);
    if s.Spawn? {
      SpawnKeepsTable(w.table, w.env, s.command, s.started);
    } else if pass.Some? {
      PassKeepsTable(pass.value, w.env, w.table);
    }
  }

  predicate AllTruthful(env: Env, signalled: set<nat>, jobs: seq<Job>) {
    forall j | j in jobs :: Truthful(env, signalled, j)
  }

  lemma PassKeepsTruth(pass: Pass, env: Env, signalled: set<nat>, jobs: seq<Job>)
    requires AllTruthful(env, signalled, jobs) && Closes(pass) <= signalled
    ensures AllTruthful(env, signalled, PassAll(pass, env, jobs))
  {
    hide Passed, Truthful;
    forall j | j in PassAll(pass, env, jobs) ensures Truthful(env, signalled, j) {
      var k :| 0 <= k < |jobs| && PassAll(pass, env, jobs)[k] == j;
      assert jobs[k] in jobs;
      PassedIsTruthful(pass, env, signalled, jobs[k]);
    }
  }

  lemma TruthIsMonotone(env: Env, after: Env, signalled: set<nat>, more: set<nat>, jobs: seq<Job>)
    requires AllTruthful(env, signalled, jobs) && signalled <= more
    requires forall id | id in env.exits :: id in after.exits && after.exits[id] == env.exits[id]
    ensures AllTruthful(after, more, jobs)
  {
  }

  lemma SpawnKeepsTruth(t: Table, env: Env, signalled: set<nat>, command: string, started: bool)
    requires Ascending(t) && Bounded(t) && AllTruthful(env, signalled, t.jobs)
    ensures AllTruthful(env, signalled, SpawnIn(t, env, command, started).0.jobs)
  {
    hide Passed, Pruned, RunningCount, FinishedCount;
    var jobs := PrunedTable(t, env);
    PassKeepsTruth(ReapAll, env, signalled, t.jobs);
  }

  lemma StepKeepsTruth(w: World, s: Step)
    requires Enabled(w, s) && Inv(w)
    ensures AllTruthful(Next(w, s).env, Next(w, s).signalled, Next(w, s).table.jobs)
  {
    hide PassAll, Passed, RunningCount, RunningIds, FinishedIds, Unreported, Pruned, Truthful, ToldIsMarked, DrainsOnce;
    var after := Next(w, s);
    assert AllTruthful(w.env, w.signalled, w.table.jobs);
    NextTable(w, s);
    var pass := PassOf(w, s);
    if s.Spawn? {
      SpawnKeepsTruth(w.table, w.env, w.signalled, s.command, s.started);
    } else if pass.Some? {
      ClosesSignalled(w, s);
      PassKeepsTruth(pass.value, w.env, w.signalled, w.table.jobs);
    }
    TruthIsMonotone(w.env, after.env, w.signalled, after.signalled, after.table.jobs);
  }

  lemma ClosesSignalled(w: World, s: Step)
    requires Enabled(w, s) && PassOf(w, s).Some? && forall k | k in w.kills :: KillIds(k) <= w.signalled
    ensures Closes(PassOf(w, s).value) <= w.signalled
  {
    match s
    case KillEnds(k) => assert w.kills[k] in w.kills; assert KillIds(w.kills[k]) == {w.kills[k].id};
    case KillAllEnds(k) => assert w.kills[k] in w.kills; assert KillIds(w.kills[k]) == w.kills[k].ids;
    case _ =>
  }

  lemma RunningIdsAreSome(t: Table)
    requires Ascending(t)
    ensures forall id | id in RunningIds(t.jobs) || id in FinishedIds(t.jobs) :: id < t.nextId
  {
  }

  lemma StepKeepsKills(w: World, s: Step)
    requires Enabled(w, s) && Inv(w)
    ensures forall k | k in Next(w, s).kills :: KillIds(k) <= Next(w, s).signalled
    ensures forall id | id in Next(w, s).signalled || id in Next(w, s).env.exits :: id < Next(w, s).table.nextId
    ensures w.signalled <= Next(w, s).signalled
  {
    hide PassAll, Passed, RunningCount, RunningIds, FinishedIds, Unreported, Pruned, Truthful, ToldIsMarked, DrainsOnce;
    StepKeepsTable(w, s);
    RunningIdsAreSome(Next(w, s).table);
  }

  // ---- notices ----

  lemma {:induction false} UnreportedIn(jobs: seq<Job>, id: nat)
    requires id in Unreported(jobs)
    ensures exists k :: 0 <= k < |jobs| && jobs[k].id == id && !jobs[k].status.Running? && !jobs[k].notified
  {
    if id in Unreported(jobs[1..]) {
      UnreportedIn(jobs[1..], id);
      var k :| 0 <= k < |jobs| - 1 && jobs[1..][k].id == id && !jobs[1..][k].status.Running? && !jobs[1..][k].notified;
      assert jobs[k + 1] == jobs[1..][k];
    } else {
      assert jobs[0].id == id;
    }
  }

  lemma {:induction false} UnreportedAscends(jobs: seq<Job>)
    requires forall a, b | 0 <= a < b < |jobs| :: jobs[a].id < jobs[b].id
    ensures forall a, b | 0 <= a < b < |Unreported(jobs)| :: Unreported(jobs)[a] < Unreported(jobs)[b]
  {
    if jobs != [] {
      var rest := Unreported(jobs[1..]);
      UnreportedAscends(jobs[1..]);
      forall b | 0 <= b < |rest| ensures jobs[0].id < rest[b] {
        UnreportedIn(jobs[1..], rest[b]);
      }
    }
  }

  lemma UnreportedSpec(jobs: seq<Job>)
    requires forall a, b | 0 <= a < b < |jobs| :: jobs[a].id < jobs[b].id
    ensures forall id | id in Unreported(jobs) :: exists j :: j in jobs && j.id == id && !j.status.Running? && !j.notified
    ensures forall a, b | 0 <= a < b < |Unreported(jobs)| :: Unreported(jobs)[a] < Unreported(jobs)[b]
  {
    UnreportedAscends(jobs);
    forall id | id in Unreported(jobs)
      ensures exists j :: j in jobs && j.id == id && !j.status.Running? && !j.notified
    {
      UnreportedIn(jobs, id);
      var k :| 0 <= k < |jobs| && jobs[k].id == id && !jobs[k].status.Running? && !jobs[k].notified;
      assert jobs[k] in jobs;
    }
  }

  /** Two jobs with one id are one job. */
  lemma SameIdSameJob(t: Table, a: Job, b: Job)
    requires Ascending(t) && a in t.jobs && b in t.jobs
    ensures a.id == b.id ==> a == b
  {
    var x :| 0 <= x < |t.jobs| && t.jobs[x] == a;
    var y :| 0 <= y < |t.jobs| && t.jobs[y] == b;
  }

  lemma PassKeepsTold(pass: Pass, env: Env, t: Table, told: seq<Notice>)
    requires forall j | j in t.jobs && !j.notified :: forall n | n in told :: n.id != j.id
    ensures forall j | j in PassAll(pass, env, t.jobs) && !j.notified :: forall n | n in told :: n.id != j.id
  {
    hide Passed;
    forall j | j in PassAll(pass, env, t.jobs) && !j.notified ensures forall n | n in told :: n.id != j.id {
      var k :| 0 <= k < |t.jobs| && PassAll(pass, env, t.jobs)[k] == j;
      assert t.jobs[k] in t.jobs;
      PassedKeepsId(pass, env, t.jobs[k]);
    }
  }

  /** After a look, a finished job is marked. */
  lemma LookMarks(env: Env, t: Table, id: nat)
    requires Ascending(t)
    ensures forall j | j in PassIn(t, env, Look(id)).jobs && j.id == id && !j.status.Running? :: j.notified
    ensures forall j | j in PassIn(t, env, CloseKill(id)).jobs && j.id == id :: j.notified
    ensures forall j | j in PassIn(t, env, Report).jobs && !j.status.Running? :: j.notified
  {
  }

  lemma LookedKeepsTold(w: World, id: nat)
    requires Ascending(w.table) && Bounded(w.table) && ToldIsMarked(w) && DrainsOnce(w.told)
    ensures ToldIsMarked(Looked(w, id)) && DrainsOnce(Looked(w, id).told)
  {
    hide PassAll, Passed, RunningCount;
    var after := Looked(w, id);
    PassKeepsTold(Look(id), w.env, w.table, w.told);
    PassKeepsTable(Look(id), w.env, w.table);
    RunningIdsAreSome(after.table);
    LookMarks(w.env, w.table, id);
    forall j | j in after.table.jobs && !j.notified && id in FinishedIds(after.table.jobs) ensures j.id != id {
      var f :| f in after.table.jobs && !f.status.Running? && f.id == id;
      SameIdSameJob(after.table, j, f);
    }
  }

  lemma KillEndKeepsTold(w: World, k: nat)
    requires Inv(w) && Enabled(w, KillEnds(k))
    ensures ToldIsMarked(Next(w, KillEnds(k))) && DrainsOnce(Next(w, KillEnds(k)).told)
  {
    hide PassAll, Passed, RunningCount, Truthful;
    var id := w.kills[k].id;
    assert w.kills[k] in w.kills && id in KillIds(w.kills[k]);
    PassKeepsTold(CloseKill(id), w.env, w.table, w.told);
    LookMarks(w.env, w.table, id);
  }

  lemma DrainedOnce(told: seq<Notice>, ids: seq<nat>)
    requires DrainsOnce(told) && forall a, b | 0 <= a < b < |ids| :: ids[a] < ids[b]
    requires forall id, n | id in ids && n in told :: n.id != id
    ensures DrainsOnce(told + DrainedAll(ids))
    ensures forall n | n in told + DrainedAll(ids) :: n in told || n.id in ids
  {
    var all := told + DrainedAll(ids);
    forall a, b | 0 <= a < b < |all| && all[b].Drained? ensures all[a].id != all[b].id {
      if |told| <= b {
        assert all[b].id == ids[b - |told|] && ids[b - |told|] in ids;
        assert a < |told| ==> all[a] in told;
      }
    }
  }

  lemma DrainKeepsTold(w: World)
    requires Ascending(w.table) && Bounded(w.table) && ToldIsMarked(w) && DrainsOnce(w.told)
    ensures ToldIsMarked(Next(w, Drain)) && DrainsOnce(Next(w, Drain).told)
  {
    hide PassAll, Passed, RunningCount, Unreported;
    var reaped := PassIn(w.table, w.env, ReapAll);
    var after := Next(w, Drain);
    var ids := Unreported(reaped.jobs);
    PassKeepsTold(Report, w.env, w.table, w.told);
    PassKeepsTold(ReapAll, w.env, w.table, w.told);
    PassKeepsTable(ReapAll, w.env, w.table);
    UnreportedSpec(reaped.jobs);
    LookMarks(w.env, w.table, 0);
    forall id | id in ids ensures id < w.table.nextId && forall n | n in w.told :: n.id != id {
      var j :| j in reaped.jobs && j.id == id && !j.status.Running? && !j.notified;
    }
    DrainedOnce(w.told, ids);
    forall j | j in after.table.jobs && !j.notified ensures j.id !in ids {
      ReportSkipsUnreported(w.table, w.env, j);
    }
  }

  lemma ReportSkipsUnreported(t: Table, env: Env, j: Job)
    requires Ascending(t) && Bounded(t) && j in PassIn(t, env, Report).jobs && !j.notified
    ensures j.id !in Unreported(PassIn(t, env, ReapAll).jobs)
  {
    hide RunningCount, Unreported;
    var reaped := PassIn(t, env, ReapAll);
    PassKeepsTable(ReapAll, env, t);
    UnreportedSpec(reaped.jobs);
    var k :| 0 <= k < |t.jobs| && PassIn(t, env, Report).jobs[k] == j;
    assert reaped.jobs[k] in reaped.jobs;
    forall f | f in reaped.jobs ensures f.id == j.id ==> f == reaped.jobs[k] {
      SameIdSameJob(reaped, f, reaped.jobs[k]);
    }
  }

  lemma SpawnKeepsTold(w: World, command: string, started: bool)
    requires Ascending(w.table) && Bounded(w.table) && ToldIsMarked(w)
    ensures ToldIsMarked(Next(w, Spawn(command, started)))
  {
    hide PassAll, Passed, Pruned, RunningCount, FinishedCount;
    var jobs := PrunedTable(w.table, w.env);
    PassKeepsTold(ReapAll, w.env, w.table, w.told);
  }

  lemma StepKeepsTold(w: World, s: Step)
    requires Enabled(w, s) && Inv(w)
    ensures ToldIsMarked(Next(w, s)) && DrainsOnce(Next(w, s).told)
  {
    hide PassAll, Passed, RunningCount, RunningIds, FinishedIds, Unreported, Pruned, Truthful, SpawnIn;
    match s
    case Spawn(command, started) => SpawnKeepsTold(w, command, started);
    case Drain => DrainKeepsTold(w);
    case Check(id) => LookedKeepsTold(w, id);
    case KillBegins(id) => LookedKeepsTold(w, id);
    case KillEnds(k) => KillEndKeepsTold(w, k);
    case Tick(_) =>
    case ProcessExits(_, _) =>
    case Count => PassKeepsTold(ReapAll, w.env, w.table, w.told);
    case KillPolls(id) => PassKeepsTold(Poll(id), w.env, w.table, w.told);
    case KillAllBegins => PassKeepsTold(ReapAll, w.env, w.table, w.told);
    case KillAllEnds(k) => PassKeepsTold(CloseKillAll(w.kills[k].ids), w.env, w.table, w.told);
  }

  lemma StepKeepsInv(w: World, s: Step)
    requires Enabled(w, s) && Inv(w)
    ensures Inv(Next(w, s))
  {
    hide Next, Enabled, Ascending, Bounded, Truthful, ToldIsMarked, DrainsOnce;
    StepKeepsTable(w, s);
    StepKeepsTruth(w, s);
    StepKeepsKills(w, s);
    StepKeepsTold(w, s);
  }

  // ---- what can never change back ----

  /** A final status stays; only a death by signal may still be relabelled, as `Killed`,
      and only for a job that was signalled. */
  predicate MayBecome(a: Status, b: Status, wasSignalled: bool) {
    a == b || a.Running? || (a == Exited(None) && b == Killed && wasSignalled)
  }

  predicate Evolves(a: Job, b: Job, signalled: set<nat>) {
    && b.id == a.id && b.command == a.command && b.startedAt == a.startedAt
    && MayBecome(a.status, b.status, a.id in signalled)
    && (a.endedAt.Some? ==> b.endedAt == a.endedAt)
    && (a.notified ==> b.notified)
  }

  /** Every job known by `w`'s ids in the later table is a job of `w`, evolved. */
  ghost predicate TableEvolves(w: World, after: World) {
    forall j | j in after.table.jobs && j.id < w.table.nextId ::
      exists a :: a in w.table.jobs && Evolves(a, j, after.signalled)
  }

  lemma PassedEvolves(pass: Pass, env: Env, signalled: set<nat>, j: Job)
    requires Truthful(env, signalled, j) && Closes(pass) <= signalled
    ensures Evolves(j, Passed(pass, env, j), signalled)
  {
  }

  lemma PassEvolves(pass: Pass, env: Env, signalled: set<nat>, jobs: seq<Job>, b: Job)
    requires AllTruthful(env, signalled, jobs) && Closes(pass) <= signalled && b in PassAll(pass, env, jobs)
    ensures exists a :: a in jobs && Evolves(a, b, signalled)
  {
    hide Passed, Truthful, Evolves;
    var k :| 0 <= k < |jobs| && PassAll(pass, env, jobs)[k] == b;
    assert jobs[k] in jobs;
    PassedEvolves(pass, env, signalled, jobs[k]);
  }

  lemma EvolvesMore(a: Job, b: Job, signalled: set<nat>, more: set<nat>)
    requires Evolves(a, b, signalled) && signalled <= more
    ensures Evolves(a, b, more)
  {
  }

  lemma SpawnEvolves(w: World, command: string, started: bool)
    requires Inv(w)
    ensures TableEvolves(w, Next(w, Spawn(command, started)))
  {
    hide PassAll, Passed, Pruned, RunningCount, FinishedCount, Evolves, Truthful;
    var jobs := PrunedTable(w.table, w.env);
    var after := Next(w, Spawn(command, started));
    assert AllTruthful(w.env, w.signalled, w.table.jobs);
    forall j | j in after.table.jobs && j.id < w.table.nextId
      ensures exists a :: a in w.table.jobs && Evolves(a, j, after.signalled)
    {
      assert j in jobs;
      PassEvolves(ReapAll, w.env, w.signalled, w.table.jobs, j);
    }
  }

  lemma SameJobEvolves(j: Job, signalled: set<nat>)
    ensures Evolves(j, j, signalled)
  {
  }

  lemma StepEvolves(w: World, s: Step)
    requires Enabled(w, s) && Inv(w)
    ensures TableEvolves(w, Next(w, s))
  {
    hide PassAll, Passed, Next, Enabled, Evolves, Truthful, Bounded, Ascending, ToldIsMarked, DrainsOnce;
    var after := Next(w, s);
    if s.Spawn? {
      SpawnEvolves(w, s.command, s.started);
    } else {
      NextTable(w, s);
      StepKeepsKills(w, s);
      var pass := PassOf(w, s);
      assert AllTruthful(w.env, w.signalled, w.table.jobs);
      if pass.Some? { ClosesSignalled(w, s); }
      forall j | j in after.table.jobs && j.id < w.table.nextId
        ensures exists a :: a in w.table.jobs && Evolves(a, j, after.signalled)
      {
        if pass.Some? {
          PassEvolves(pass.value, w.env, w.signalled, w.table.jobs, j);
          var a :| a in w.table.jobs && Evolves(a, j, w.signalled);
          EvolvesMore(a, j, w.signalled, after.signalled);
        } else {
          SameJobEvolves(j, after.signalled);
        }
      }
    }
  }

  /** An id is signalled only while its job is running. */
  lemma SignalledWhileRunning(w: World, s: Step, id: nat)
    requires Enabled(w, s) && id in Next(w, s).signalled && id !in w.signalled
    ensures id in RunningIds(Next(w, s).table.jobs)
  {
    hide PassAll, RunningIds, FinishedIds;
  }

  // ---- whole runs ----

  ghost predicate IsRun(ws: seq<World>, steps: seq<Step>) {
    |ws| == |steps| + 1 && ws[0] == START
    && forall k {:trigger steps[k]} | 0 <= k < |steps| :: Enabled(ws[k], steps[k]) && ws[k + 1] == Next(ws[k], steps[k])
  }

  /** In every reachable world: at most 16 running jobs and 48 entries, ids strictly
      increasing, records truthful, and every finish reported by draining at most once and
      never after it was told. */
  lemma {:induction false} RunKeepsInv(ws: seq<World>, steps: seq<Step>, k: nat)
    requires IsRun(ws, steps) && k < |ws|
    ensures Inv(ws[k])
  {
    hide Next, Enabled, Ascending, Bounded, Truthful, ToldIsMarked, DrainsOnce;
    if k == 0 {
      StartIsFine();
    } else {
      RunKeepsInv(ws, steps, k - 1);
      var s := steps[k - 1];
      StepKeepsInv(ws[k - 1], s);
    }
  }

  /** `id` is first signalled in world `i`, and its job is running there. */
  ghost predicate SignalledRunning(ws: seq<World>, i: nat, id: nat) {
    i < |ws| && id in ws[i].signalled && id in RunningIds(ws[i].table.jobs) && (i == 0 || id !in ws[i - 1].signalled)
  }

  /** Every id a kill ever signalled belonged to a job that was running at the time. */
  lemma {:induction false} RunSignalsRunning(ws: seq<World>, steps: seq<Step>, k: nat, id: nat)
    requires IsRun(ws, steps) && k < |ws| && id in ws[k].signalled
    ensures exists i: nat | i <= k :: SignalledRunning(ws, i, id)
  {
    hide Next, RunningIds;
    if k > 0 {
      if id in ws[k - 1].signalled {
        RunSignalsRunning(ws, steps, k - 1, id);
      } else {
        SignalledWhileRunning(ws[k - 1], steps[k - 1], id);
        assert SignalledRunning(ws, k, id);
      }
    }
  }

  // ---- what a kill leaves behind ----

  /** The ids whose kill a step closes. */
  function ClosedIds(w: World, s: Step): set<nat>
    requires Enabled(w, s)
  {
    match s
    case KillEnds(k) => {w.kills[k].id}
    case KillAllEnds(k) => w.kills[k].ids
    case _ => {}
  }

  /** Closing a kill settles its jobs by what their processes did, and touches no other. */
  lemma KillClosesJob(w: World, s: Step, i: nat)
    requires Inv(w) && Enabled(w, s) && (s.KillEnds? || s.KillAllEnds?) && i < |w.table.jobs|
    ensures var was, jobs := w.table.jobs[i], Next(w, s).table.jobs;
      && |jobs| == |w.table.jobs|
      && if was.id in ClosedIds(w, s) then Closed(w.env, was, jobs[i]) && (s.KillEnds? ==> jobs[i].notified) else jobs[i] == was
  {
    hide Ascending, Bounded, ToldIsMarked, DrainsOnce;
    assert w.table.jobs[i] in w.table.jobs;
  }

  lemma ClosedIdsAreKnown(w: World, s: Step)
    requires Inv(w) && Enabled(w, s)
    ensures forall id | id in ClosedIds(w, s) :: id < w.table.nextId
  {
    hide Ascending, Bounded, ToldIsMarked, DrainsOnce, Truthful;
    match s
    case KillEnds(k) => assert w.kills[k] in w.kills && w.kills[k].id in KillIds(w.kills[k]);
    case KillAllEnds(k) => assert w.kills[k] in w.kills && w.kills[k].ids == KillIds(w.kills[k]);
    case _ =>
  }

  /** Once a kill of a job has closed, the job is `Killed` or has an exit code, ever after: no
      death by the kill's own signal is left as it was found. */
  lemma KillIsFinal(ws: seq<World>, steps: seq<Step>, i: nat, k: nat, j: Job)
    requires IsRun(ws, steps) && i < |steps| && i < k < |ws|
    requires Enabled(ws[i], steps[i]) && j.id in ClosedIds(ws[i], steps[i]) && j in ws[k].table.jobs
    ensures j.status.Killed? || (j.status.Exited? && j.status.code.Some?)
  {
    hide Next, Inv, ClosedIds, Ascending, Bounded;
    var w, after := ws[i], ws[i + 1];
    RunKeepsInv(ws, steps, i);
    ClosedIdsAreKnown(w, steps[i]);
    RunEvolves(ws, steps, i, i + 1);
    RunEvolves(ws, steps, i + 1, k);
    var a :| a in after.table.jobs && Evolves(a, j, ws[k].signalled);
    var n :| 0 <= n < |after.table.jobs| && after.table.jobs[n] == a;
    ClosesNoneElse(w, steps[i]);
    KillClosesJob(w, steps[i], n);
  }

  lemma ClosesNoneElse(w: World, s: Step)
    requires Inv(w) && Enabled(w, s) && ClosedIds(w, s) != {}
    ensures (s.KillEnds? || s.KillAllEnds?) && |Next(w, s).table.jobs| == |w.table.jobs|
    ensures forall n | 0 <= n < |w.table.jobs| :: Next(w, s).table.jobs[n].id == w.table.jobs[n].id
  {
    hide Ascending, Bounded, ToldIsMarked, DrainsOnce, Truthful;
  }

  /** Whoever looks sees the present: after any section that reaps, a job listed as running has
      not exited, and one just found dead died now. */
  lemma NothingIsStale(w: World, s: Step)
    requires Inv(w) && Enabled(w, s)
    requires s.Check? || s.Drain? || s.Count? || s.KillBegins? || s.KillAllBegins? || s.Spawn?
    ensures forall j | j in Next(w, s).table.jobs && j.status.Running? :: j.id !in w.env.exits
    ensures !s.Spawn? ==> forall i | 0 <= i < |w.table.jobs| && w.table.jobs[i].status.Running? ::
      var j := Next(w, s).table.jobs[i]; !j.status.Running? ==> j.endedAt == Some(w.env.now)
  {
    hide Ascending, Bounded, ToldIsMarked, DrainsOnce, RunningCount, Pruned, Unreported;
    if s.Spawn? {
      SpawnListsCurrent(w, s.command, s.started);
    } else {
      var after := Next(w, s).table.jobs;
      forall i | 0 <= i < |w.table.jobs| && w.table.jobs[i].status.Running? && !after[i].status.Running?
        ensures after[i].endedAt == Some(w.env.now)
      {
        assert w.table.jobs[i] in w.table.jobs;
      }
    }
  }

  lemma SpawnListsCurrent(w: World, command: string, started: bool)
    requires Inv(w)
    ensures forall j | j in Next(w, Spawn(command, started)).table.jobs && j.status.Running? :: j.id !in w.env.exits
  {
    hide Pruned, RunningCount, FinishedCount, Truthful, ToldIsMarked, DrainsOnce;
    var jobs := PrunedTable(w.table, w.env);
    assert forall j | j in jobs && j.status.Running? :: j.id !in w.env.exits;
  }

  // ---- what is told of a finish ----

  function ToldIds(told: seq<Notice>): set<nat> {
    set n | n in told :: n.id
  }

  /** A job is marked as told only if its finish was told. */
  predicate MarkedIsTold(w: World) {
    forall j | j in w.table.jobs && j.notified :: j.id in ToldIds(w.told)
  }

  lemma ToldGrows(told: seq<Notice>, more: seq<Notice>)
    ensures ToldIds(told + more) == ToldIds(told) + ToldIds(more)
  {
  }

  /** The ids a pass may mark: those whose finish its section tells of. */
  function Marks(pass: Pass, env: Env, jobs: seq<Job>): set<nat> {
    match pass
    case Look(id) => if id in FinishedIds(PassAll(pass, env, jobs)) then {id} else {}
    case CloseKill(id) => {id}
    case Report => set id | id in Unreported(PassAll(ReapAll, env, jobs))
    case _ => {}
  }

  lemma {:induction false} UnreportedHolds(jobs: seq<Job>, k: nat)
    requires k < |jobs| && !jobs[k].status.Running? && !jobs[k].notified
    ensures jobs[k].id in Unreported(jobs)
  {
    if k > 0 { UnreportedHolds(jobs[1..], k - 1); }
  }

  lemma PassMarksOnly(pass: Pass, env: Env, jobs: seq<Job>, k: nat)
    requires k < |jobs| && PassAll(pass, env, jobs)[k].notified
    ensures jobs[k].notified || jobs[k].id in Marks(pass, env, jobs)
    ensures PassAll(pass, env, jobs)[k].id == jobs[k].id
  {
    hide Unreported;
    var after := PassAll(pass, env, jobs);
    match pass
    case Look(id) => assert after[k] in after;
    case Report =>
      if !jobs[k].notified { UnreportedHolds(PassAll(ReapAll, env, jobs), k); }
    case _ =>
  }

  lemma PassKeepsMarks(pass: Pass, env: Env, jobs: seq<Job>, told: seq<Notice>, more: seq<Notice>)
    requires forall j | j in jobs && j.notified :: j.id in ToldIds(told)
    requires Marks(pass, env, jobs) <= ToldIds(more)
    ensures forall j | j in PassAll(pass, env, jobs) && j.notified :: j.id in ToldIds(told + more)
  {
    hide PassAll, Marks, ToldIds;
    ToldGrows(told, more);
    var after := PassAll(pass, env, jobs);
    forall j | j in after && j.notified ensures j.id in ToldIds(told + more) {
      var k :| 0 <= k < |after| && after[k] == j;
      PassMarksOnly(pass, env, jobs, k);
      assert jobs[k] in jobs;
    }
  }

  lemma DrainedTold(ids: seq<nat>)
    ensures ToldIds(DrainedAll(ids)) == set id | id in ids
  {
    forall id | id in ids ensures id in ToldIds(DrainedAll(ids)) {
      var k :| 0 <= k < |ids| && ids[k] == id;
      assert DrainedAll(ids)[k] in DrainedAll(ids);
    }
  }

  lemma SpawnKeepsMarks(w: World, command: string, started: bool)
    requires Inv(w) && MarkedIsTold(w)
    ensures MarkedIsTold(Next(w, Spawn(command, started)))
  {
    hide PassAll, Passed, Pruned, RunningCount, FinishedCount, ToldIds, Truthful;
    var jobs := PrunedTable(w.table, w.env);
    PassKeepsMarks(ReapAll, w.env, w.table.jobs, w.told, []);
    assert w.told + [] == w.told;
  }

  lemma StepKeepsMarks(w: World, s: Step)
    requires Enabled(w, s) && Inv(w) && MarkedIsTold(w)
    ensures MarkedIsTold(Next(w, s))
  {
    hide PassAll, Passed, RunningCount, RunningIds, FinishedIds, Unreported, Pruned, Truthful, SpawnIn;
    var jobs, told := w.table.jobs, w.told;
    assert told + [] == told;
    match s
    case Spawn(command, started) => SpawnKeepsMarks(w, command, started);
    case Drain =>
      DrainedTold(Unreported(PassAll(ReapAll, w.env, jobs)));
      PassKeepsMarks(Report, w.env, jobs, told, DrainedAll(Unreported(PassAll(ReapAll, w.env, jobs))));
    case Check(id) => LookedKeepsMarks(w, id);
    case KillBegins(id) => LookedKeepsMarks(w, id);
    case KillEnds(k) =>
      assert Observed(w.kills[k].id) in [Observed(w.kills[k].id)];
      PassKeepsMarks(CloseKill(w.kills[k].id), w.env, jobs, told, [Observed(w.kills[k].id)]);
    case Tick(_) =>
    case ProcessExits(_, _) =>
    case Count => PassKeepsMarks(ReapAll, w.env, jobs, told, []);
    case KillPolls(id) => PassKeepsMarks(Poll(id), w.env, jobs, told, []);
    case KillAllBegins => PassKeepsMarks(ReapAll, w.env, jobs, told, []);
    case KillAllEnds(k) => PassKeepsMarks(CloseKillAll(w.kills[k].ids), w.env, jobs, told, []);
  }

  lemma LookedKeepsMarks(w: World, id: nat)
    requires MarkedIsTold(w)
    ensures MarkedIsTold(Looked(w, id))
  {
    hide PassAll, Passed;
    var more := if id in FinishedIds(PassIn(w.table, w.env, Look(id)).jobs) then [Observed(id)] else [];
    assert id in FinishedIds(PassIn(w.table, w.env, Look(id)).jobs) ==> Observed(id) in more;
    PassKeepsMarks(Look(id), w.env, w.table.jobs, w.told, more);
  }

  /** In every reachable world a finish is marked only if it was told; so once draining has
      run, every finished job still listed has been told of. */
  lemma {:induction false} DrainLeavesNoneUntold(ws: seq<World>, steps: seq<Step>, k: nat)
    requires IsRun(ws, steps) && k < |ws|
    ensures MarkedIsTold(ws[k])
    ensures FinishedIds(Next(ws[k], Drain).table.jobs) <= ToldIds(Next(ws[k], Drain).told)
  {
    hide Next, Inv;
    if k > 0 {
      DrainLeavesNoneUntold(ws, steps, k - 1);
      RunKeepsInv(ws, steps, k - 1);
      StepKeepsMarks(ws[k - 1], steps[k - 1]);
    }
    RunKeepsInv(ws, steps, k);
    DrainTellsAll(ws[k]);
  }

  /** A finish is lost, told or not, exactly when a spawn finds 32 later jobs finished. */
  lemma SpawnKeepsJobIff(w: World, command: string, started: bool, k: nat)
    requires Inv(w) && k < |w.table.jobs|
    ensures var reaped := PassAll(ReapAll, w.env, w.table.jobs);
      reaped[k] in Next(w, Spawn(command, started)).table.jobs <==>
        reaped[k].status.Running? || FinishedCount(reaped[k + 1..]) < MAX_FINISHED_JOBS
  {
    hide PassAll, Pruned, RunningAndRecent, FinishedCount, RunningCount, Truthful, ToldIsMarked, DrainsOnce;
    var reaped := PassAll(ReapAll, w.env, w.table.jobs);
    PassKeepsTable(ReapAll, w.env, w.table);
    RecentIff(reaped, k);
    PrunedIsRunningAndRecent(reaped);
    assert reaped[k].id < w.table.nextId;
  }

  // ---- a finish that is never told ----

  /** The job is no longer listed, no kill of it is under way, and its finish was not told. */
  predicate IsLost(w: World, id: nat) {
    id < w.table.nextId && id !in IdsOf(w.table.jobs) && KillOne(id) !in w.kills && id !in ToldIds(w.told)
  }

  lemma PassKeepsAbsence(pass: Pass, env: Env, jobs: seq<Job>, id: nat)
    requires id !in IdsOf(jobs)
    ensures id !in IdsOf(PassAll(pass, env, jobs)) && id !in FinishedIds(PassAll(pass, env, jobs))
    ensures id !in RunningIds(PassAll(pass, env, jobs))
  {
    var after := PassAll(pass, env, jobs);
    forall j | j in after ensures j.id != id {
      var k :| 0 <= k < |after| && after[k] == j;
      PassedKeepsId(pass, env, jobs[k]);
      assert jobs[k] in jobs;
    }
  }

  lemma DrainMissesAbsent(env: Env, jobs: seq<Job>, id: nat)
    requires id !in IdsOf(jobs) && forall a, b | 0 <= a < b < |jobs| :: jobs[a].id < jobs[b].id
    ensures id !in Unreported(jobs) && id !in ToldIds(DrainedAll(Unreported(jobs)))
  {
    UnreportedSpec(jobs);
    DrainedTold(Unreported(jobs));
  }

  lemma DrainKeepsLost(w: World, id: nat)
    requires Inv(w) && IsLost(w, id)
    ensures IsLost(Next(w, Drain), id)
  {
    hide PassAll, Passed, IdsOf, FinishedIds, Unreported, ToldIds, Truthful, Bounded;
    var reaped := PassAll(ReapAll, w.env, w.table.jobs);
    InvParts(w);
    PassKeepsTable(ReapAll, w.env, w.table);
    PassKeepsAbsence(ReapAll, w.env, w.table.jobs, id);
    PassKeepsAbsence(Report, w.env, w.table.jobs, id);
    DrainMissesAbsent(w.env, reaped, id);
    ToldGrows(w.told, DrainedAll(Unreported(reaped)));
  }

  lemma SpawnKeepsLost(w: World, command: string, started: bool, id: nat)
    requires Inv(w) && IsLost(w, id)
    ensures IsLost(Next(w, Spawn(command, started)), id)
  {
    hide PassAll, Passed, Pruned, FinishedIds, RunningIds, Unreported, ToldIds, Truthful, RunningCount;
    var jobs := PrunedTable(w.table, w.env);
    PassKeepsAbsence(ReapAll, w.env, w.table.jobs, id);
  }

  lemma LookedKeepsLost(w: World, id: nat, other: nat)
    requires IsLost(w, id)
    ensures IsLost(Looked(w, other), id) && (id == other ==> id !in RunningIds(Looked(w, other).table.jobs))
  {
    hide PassAll, Passed, IdsOf, FinishedIds, RunningIds, ToldIds;
    PassKeepsAbsence(Look(other), w.env, w.table.jobs, id);
    var more := if other in FinishedIds(Looked(w, other).table.jobs) then [Observed(other)] else [];
    ToldGrows(w.told, more);
    ToldOne(other);
  }

  lemma ToldOne(id: nat)
    ensures ToldIds([Observed(id)]) == {id} && ToldIds([]) == {}
  {
  }

  lemma KillEndKeepsLost(w: World, k: nat, id: nat)
    requires IsLost(w, id) && k < |w.kills| && w.kills[k].KillOne?
    ensures IsLost(Next(w, KillEnds(k)), id)
  {
    hide PassAll, Passed, IdsOf, ToldIds;
    var other := w.kills[k].id;
    assert w.kills[k] in w.kills && other != id;
    PassKeepsAbsence(CloseKill(other), w.env, w.table.jobs, id);
    ToldGrows(w.told, [Observed(other)]);
    ToldOne(other);
  }

  lemma StepKeepsLost(w: World, s: Step, id: nat)
    requires Enabled(w, s) && Inv(w) && IsLost(w, id)
    ensures IsLost(Next(w, s), id)
  {
    hide PassAll, Passed, IdsOf, FinishedIds, RunningIds, Unreported, ToldIds, Inv, SpawnIn;
    var jobs := w.table.jobs;
    match s
    case Spawn(command, started) => SpawnKeepsLost(w, command, started, id);
    case Drain => DrainKeepsLost(w, id);
    case Check(other) => LookedKeepsLost(w, id, other);
    case KillBegins(other) => LookedKeepsLost(w, id, other);
    case KillEnds(k) => KillEndKeepsLost(w, k, id);
    case Tick(_) =>
    case ProcessExits(_, _) =>
    case Count => PassKeepsAbsence(ReapAll, w.env, jobs, id);
    case KillPolls(other) => PassKeepsAbsence(Poll(other), w.env, jobs, id);
    case KillAllBegins => PassKeepsAbsence(ReapAll, w.env, jobs, id);
    case KillAllEnds(k) => PassKeepsAbsence(CloseKillAll(w.kills[k].ids), w.env, jobs, id);
  }

  /** A lost finish stays untold in every continuation of the run. */
  lemma {:induction false} LostForGood(ws: seq<World>, steps: seq<Step>, i: nat, k: nat, id: nat)
    requires IsRun(ws, steps) && i <= k < |ws| && IsLost(ws[i], id)
    ensures IsLost(ws[k], id)
    decreases k
  {
    hide Next, IsLost, Inv;
    if i < k {
      LostForGood(ws, steps, i, k - 1, id);
      RunKeepsInv(ws, steps, k - 1);
      StepKeepsLost(ws[k - 1], steps[k - 1], id);
    }
  }

  /** Spawning in a reachable world loses an untold finish, for good, exactly when 32 later jobs
      have finished, unless a kill of that very job is still to report. */
  lemma SpawnLosesFinishIff(ws: seq<World>, steps: seq<Step>, n: nat, k: nat)
    requires IsRun(ws, steps) && n < |steps| && steps[n].Spawn? && k < |ws[n].table.jobs|
    requires var j := PassAll(ReapAll, ws[n].env, ws[n].table.jobs)[k];
      !j.status.Running? && j.id !in ToldIds(ws[n].told) && KillOne(j.id) !in ws[n].kills
    ensures var reaped := PassAll(ReapAll, ws[n].env, ws[n].table.jobs);
      IsLost(ws[n + 1], reaped[k].id) <==> FinishedCount(reaped[k + 1..]) >= MAX_FINISHED_JOBS
  {
    hide PassAll, Passed, Pruned, RunningAndRecent, FinishedCount, RunningCount, Truthful, ToldIds, Inv;
    var w, after := ws[n], ws[n + 1];
    RunKeepsInv(ws, steps, n);
    SpawnKeepsJobIff(w, steps[n].command, steps[n].started, k);
    SpawnKeepsOnlyReaped(w, steps[n].command, steps[n].started, k);
  }

  lemma SpawnKeepsOnlyReaped(w: World, command: string, started: bool, k: nat)
    requires Inv(w) && k < |w.table.jobs|
    ensures var j := PassAll(ReapAll, w.env, w.table.jobs)[k];
      var after := Next(w, Spawn(command, started));
      (j.id in IdsOf(after.table.jobs) <==> j in after.table.jobs) && j.id < after.table.nextId
      && after.told == w.told && after.kills == w.kills
  {
    hide Passed, Pruned, RunningCount, FinishedCount, Truthful, ToldIsMarked, DrainsOnce, PassAll;
    var reaped := PassAll(ReapAll, w.env, w.table.jobs);
    PassKeepsTable(ReapAll, w.env, w.table);
    var jobs := PrunedTable(w.table, w.env);
    assert reaped[k].id < w.table.nextId;
    forall j | j in jobs && j.id == reaped[k].id ensures j == reaped[k] {
      SameIdSameJob(w.table.(jobs := reaped), j, reaped[k]);
    }
  }

  // ---- such a run ----

  /** `n` jobs were spawned and have exited one after the other, and nobody has asked or been told. */
  ghost predicate OneByOne(w: World, n: nat) {
    && |w.table.jobs| == n && w.table.nextId == n + 1 && w.told == [] && w.kills == []
    && (forall k | 0 <= k < n :: w.table.jobs[k].id == k + 1)
    && (forall id: nat :: id in w.env.exits <==> 1 <= id <= n)
  }

  lemma {:induction false} AllFinishedCount(jobs: seq<Job>)
    requires forall k | 0 <= k < |jobs| :: !jobs[k].status.Running?
    ensures RunningCount(jobs) == 0 && FinishedCount(jobs) == |jobs|
  {
    if jobs != [] { AllFinishedCount(jobs[1..]); }
  }

  lemma ReapedOneByOne(w: World, n: nat)
    requires OneByOne(w, n)
    ensures var reaped := PassAll(ReapAll, w.env, w.table.jobs);
      forall k | 0 <= k < n :: !reaped[k].status.Running? && reaped[k].id == k + 1
  {
  }

  lemma SpawnAndExit(w: World, n: nat, command: string)
    requires OneByOne(w, n) && n <= MAX_FINISHED_JOBS
    ensures Enabled(Next(w, Spawn(command, true)), ProcessExits(n + 1, Some(0)))
    ensures OneByOne(Next(Next(w, Spawn(command, true)), ProcessExits(n + 1, Some(0))), n + 1)
  {
    hide PassAll, RunningCount, FinishedCount;
    var reaped := PassAll(ReapAll, w.env, w.table.jobs);
    ReapedOneByOne(w, n);
    AllFinishedCount(reaped);
    assert Pruned(reaped) == reaped;
    var job := Job(n + 1, command, w.env.now, None, Running, false);
    assert Next(w, Spawn(command, true)) == w.(table := Table(reaped + [job], n + 2));
    assert forall k | 0 <= k < n :: (reaped + [job])[k] == reaped[k];
  }

  lemma {:induction false} RunOneByOne(n: nat, command: string) returns (ws: seq<World>, steps: seq<Step>)
    requires n <= MAX_FINISHED_JOBS + 1
    ensures IsRun(ws, steps) && OneByOne(ws[|steps|], n)
  {
    if n == 0 {
      ws, steps := [START], [];
    } else {
      hide Next, OneByOne, Enabled;
      ws, steps := RunOneByOne(n - 1, command);
      var w := ws[|steps|];
      EveryoneCanSpawn(w, command);
      SpawnAndExit(w, n - 1, command);
      ws, steps := RunThen(ws, steps, Spawn(command, true));
      ws, steps := RunThen(ws, steps, ProcessExits(n, Some(0)));
    }
  }

  lemma EveryoneCanSpawn(w: World, command: string)
    ensures Enabled(w, Spawn(command, true))
  {
  }

  lemma RunThen(ws: seq<World>, steps: seq<Step>, s: Step) returns (ws': seq<World>, steps': seq<Step>)
    requires IsRun(ws, steps) && Enabled(ws[|steps|], s)
    ensures IsRun(ws', steps') && |steps'| == |steps| + 1 && ws'[..|ws|] == ws && steps'[..|steps|] == steps
    ensures ws'[|steps'|] == Next(ws[|steps|], s) && steps'[|steps|] == s
  {
    hide Next, Enabled;
    ws', steps' := ws + [Next(ws[|steps|], s)], steps + [s];
  }

  /** A run in which a finish is lost: 33 jobs come and go unnoticed, and the next spawn drops
      the first of them, which no continuation of the run will ever tell of. */
  lemma FinishCanBeLost(command: string) returns (ws: seq<World>, steps: seq<Step>)
    ensures IsRun(ws, steps) && steps != [] && steps[|steps| - 1] == Spawn(command, true)
    ensures var before := ws[|steps| - 1];
      1 in IdsOf(before.table.jobs) && 1 in before.env.exits && 1 !in ToldIds(before.told)
    ensures IsLost(ws[|steps|], 1)
  {
    hide Next, Enabled, IsLost;
    var ws0, steps0 := RunOneByOne(MAX_FINISHED_JOBS + 1, command);
    var w := ws0[|steps0|];
    EveryoneCanSpawn(w, command);
    ws, steps := RunThen(ws0, steps0, Spawn(command, true));
    assert ws[|steps0|] == w;
    assert w.table.jobs[0] in w.table.jobs;
    var reaped := PassAll(ReapAll, w.env, w.table.jobs);
    ReapedOneByOne(w, MAX_FINISHED_JOBS + 1);
    AllFinishedCount(reaped[1..]);
    SpawnLosesFinishIff(ws, steps, |steps0|, 0);
  }

  lemma DrainTellsAll(w: World)
    requires Inv(w) && MarkedIsTold(w)
    ensures FinishedIds(Next(w, Drain).table.jobs) <= ToldIds(Next(w, Drain).told)
  {
    hide PassAll, Passed, Unreported, ToldIds, Truthful;
    StepKeepsMarks(w, Drain);
    LookMarks(w.env, w.table, 0);
  }

  lemma StartIsFine()
    ensures Inv(START)
  {
  }

  lemma EvolvesTwice(w: World, mid: World, after: World)
    requires TableEvolves(w, mid) && TableEvolves(mid, after)
    requires w.table.nextId <= mid.table.nextId && mid.signalled <= after.signalled
    ensures TableEvolves(w, after)
  {
    forall j | j in after.table.jobs && j.id < w.table.nextId
      ensures exists a :: a in w.table.jobs && Evolves(a, j, after.signalled)
    {
      var m :| m in mid.table.jobs && Evolves(m, j, after.signalled);
      var a :| a in w.table.jobs && Evolves(a, m, mid.signalled);
      assert Evolves(a, j, after.signalled);
    }
  }

  lemma IdleEvolves(w: World)
    ensures TableEvolves(w, w)
  {
    forall j | j in w.table.jobs ensures exists a :: a in w.table.jobs && Evolves(a, j, w.signalled) {
      SameJobEvolves(j, w.signalled);
    }
  }

  /** Between any two points of a run, whatever happened in between: a job still listed
      under an id handed out before the first point was listed then too, an exit code, a kill
      and an end time are the same, and a job never runs again. Ids are never reused. */
  lemma {:induction false} RunEvolves(ws: seq<World>, steps: seq<Step>, i: nat, k: nat)
    requires IsRun(ws, steps) && i <= k < |ws|
    ensures TableEvolves(ws[i], ws[k])
    ensures ws[i].table.nextId <= ws[k].table.nextId && ws[i].signalled <= ws[k].signalled
    decreases k - i
  {
    hide Next, Enabled, Inv, TableEvolves;
    if i == k {
      IdleEvolves(ws[i]);
    } else {
      RunEvolves(ws, steps, i, k - 1);
      var s := steps[k - 1];
      RunKeepsInv(ws, steps, k - 1);
      InvParts(ws[k - 1]);
      StepEvolves(ws[k - 1], s);
      StepKeepsTable(ws[k - 1], s);
      StepKeepsKills(ws[k - 1], s);
      EvolvesTwice(ws[i], ws[k - 1], ws[k]);
    }
  }

  lemma InvParts(w: World)
    requires Inv(w)
    ensures Ascending(w.table) && Bounded(w.table)
  {
  }
}
