/** The job table's critical sections as they update it in place, each one step of the
    state machine in Jobs and JobRuns. */
module JobTables {
  import opened Text
  import opened Jobs
  import opened JobRuns

  class JobTable {
    var jobs: seq<Job>
    var nextId: nat

    constructor ()
      ensures Now() == Table([], 1)
    {
      jobs, nextId := [], 1;
    }

    function Now(): Table
      reads this
    {
      Table(jobs, nextId)
    }

    predicate Valid()
      reads this
    {
      Ascending(Now())
    }

    method ReapJobs(env: Env)
      modifies this`jobs
      ensures Now() == PassIn(old(Now()), env, ReapAll)
    {
      for i := 0 to |jobs|
        invariant |jobs| == |old(jobs)|
        invariant forall k | 0 <= k < |jobs| :: jobs[k] == if k < i then Reap(env, old(jobs)[k]) else old(jobs)[k]
      {
        var j := jobs[i];
        if j.status.Running? && j.id in env.exits {
          jobs := jobs[i := j.(status := Exited(env.exits[j.id]),
                               endedAt := Some(if j.endedAt.Some? then j.endedAt.value else env.now))];
        }
      }
    }

    /** Drop the oldest finished jobs beyond the limit, counting them off as they pass. */
    method PruneFinished()
      modifies this`jobs
      ensures jobs == Pruned(old(jobs))
    {
      var finished := FinishedCount(jobs);
      if finished <= MAX_FINISHED_JOBS { return; }
      var toDrop := finished - MAX_FINISHED_JOBS;
      var kept, all := [], jobs;
      for i := 0 to |all|
        invariant toDrop >= 0
        invariant kept + DropFinished(all[i..], toDrop) == DropFinished(all, finished - MAX_FINISHED_JOBS)
      {
        assert all[i..][0] == all[i] && all[i..][1..] == all[i + 1..];
        if toDrop > 0 && !all[i].status.Running? {
          toDrop := toDrop - 1;
        } else {
          kept := kept + [all[i]];
        }
      }
      jobs := kept;
    }

    /** `started` says whether the operating system let the process start. */
    method Spawn(env: Env, command: string, started: bool) returns (id: Option<nat>)
      modifies this
      ensures (Now(), id.Some?) == SpawnIn(old(Now()), env, command, started)
      ensures id.Some? ==> id.value == old(nextId)
      ensures id.Some? <==> started && RunningCount(PassAll(ReapAll, env, old(jobs))) < 16
      ensures jobs == RunningAndRecent(PassAll(ReapAll, env, old(jobs)))
        + if id.Some? then [Job(id.value, command, env.now, None, Running, false)] else []
    {
      PrunedIsRunningAndRecent(PassAll(ReapAll, env, jobs));
      ReapJobs(env);
      PruneFinished();
      if RunningCount(jobs) >= MAX_RUNNING_JOBS || !started { return None; }
      id := Some(nextId);
      jobs := jobs + [Job(nextId, command, env.now, None, Running, false)];
      nextId := nextId + 1;
    }

    method Find(id: nat) returns (i: Option<nat>)
      ensures i.Some? ==> i.value < |jobs| && jobs[i.value].id == id
      ensures i.None? ==> forall k | 0 <= k < |jobs| :: jobs[k].id != id
    {
      for k := 0 to |jobs|
        invariant forall p | 0 <= p < k :: jobs[p].id != id
      {
        if jobs[k].id == id { return Some(k); }
      }
      i := None;
    }

    /** Reap all, then mark the one job as seen if it has finished. */
    method Check(env: Env, id: nat) returns (r: Option<Job>)
      requires Valid()
      modifies this`jobs
      ensures Valid() && Now() == PassIn(old(Now()), env, Look(id))
      ensures r.Some? ==> r.value in jobs && r.value.id == id
      ensures r.None? <==> id !in IdsOf(jobs)
    {
      hide Passed;
      ghost var before := jobs;
      ReapJobs(env);
      var i := Find(id);
      LookAtOne(env, before, id, i);
      if i.Some? {
        if !jobs[i.value].status.Running? {
          jobs := jobs[i.value := jobs[i.value].(notified := true)];
        }
        r := Some(jobs[i.value]);
      } else {
        r := None;
      }
    }

    /** The finished jobs not told of yet, marked as they are taken. */
    method DrainFinishedNotices(env: Env) returns (ids: seq<nat>)
      modifies this`jobs
      ensures Now() == PassIn(old(Now()), env, Report)
      ensures ids == Unreported(PassAll(ReapAll, env, old(jobs)))
    {
      ReapJobs(env);
      ghost var reaped := jobs;
      ids := [];
      for i := 0 to |jobs|
        invariant |jobs| == |reaped|
        invariant forall k | 0 <= k < |jobs| :: jobs[k] == if k < i then Seen(reaped[k]) else reaped[k]
        invariant ids + Unreported(reaped[i..]) == Unreported(reaped)
      {
        assert reaped[i..][0] == reaped[i] && reaped[i..][1..] == reaped[i + 1..];
        if !jobs[i].status.Running? && !jobs[i].notified {
          ids := ids + [jobs[i].id];
          jobs := jobs[i := jobs[i].(notified := true)];
        }
      }
      assert jobs == PassAll(Report, env, old(jobs));
    }

    /** First section of a kill: `true` when the job was running and has been signalled. */
    method KillBegin(env: Env, id: nat) returns (signalled: bool)
      requires Valid()
      modifies this`jobs
      ensures Valid() && Now() == PassIn(old(Now()), env, Look(id))
      ensures signalled <==> id in RunningIds(jobs)
    {
      var job := Check(env, id);
      signalled := job.Some? && job.value.status.Running?;
      RunningIsUnique(Now(), id);
    }

    /** One tick of the wait: reap the job, and see whether it is over. */
    method KillPoll(env: Env, id: nat) returns (done: bool)
      requires Valid()
      modifies this`jobs
      ensures Valid() && Now() == PassIn(old(Now()), env, Poll(id))
      ensures done <==> id !in RunningIds(jobs)
    {
      var i := Find(id);
      done := true;
      if i.Some? {
        jobs := jobs[i.value := Reap(env, jobs[i.value])];
        done := !jobs[i.value].status.Running?;
      }
      assert jobs == PassAll(Poll(id), env, old(jobs));
      RunningIsUnique(Now(), id);
    }

    /** Last section of a kill: settle the job's status and mark it as seen. */
    method KillEnd(env: Env, id: nat) returns (r: Option<Job>)
      requires Valid()
      modifies this`jobs
      ensures Valid() && Now() == PassIn(old(Now()), env, CloseKill(id))
      ensures r.Some? ==> r.value in jobs && r.value.id == id && r.value.notified && !r.value.status.Running?
      ensures r.None? <==> id !in IdsOf(jobs)
      ensures forall k | 0 <= k < |jobs| && RecordIsTrue(env, old(jobs)[k]) ::
        if jobs[k].id == id then Closed(env, old(jobs)[k], jobs[k]) && jobs[k].notified else jobs[k] == old(jobs)[k]
    {
      var i := Find(id);
      r := None;
      if i.Some? {
        jobs := jobs[i.value := Finalize(env, jobs[i.value]).(notified := true)];
        r := Some(jobs[i.value]);
      }
      assert jobs == PassAll(CloseKill(id), env, old(jobs));
    }

    method KillAllBegin(env: Env) returns (signalled: set<nat>)
      modifies this`jobs
      ensures Now() == PassIn(old(Now()), env, ReapAll) && signalled == RunningIds(jobs)
    {
      ReapJobs(env);
      signalled := {};
      for i := 0 to |jobs|
        invariant signalled == RunningIds(jobs[..i])
      {
        assert jobs[..i + 1] == jobs[..i] + [jobs[i]];
        if jobs[i].status.Running? {
          signalled := signalled + {jobs[i].id};
        }
      }
      assert jobs[..|jobs|] == jobs;
    }

    /** Only the jobs this call signalled may be relabelled. */
    method KillAllEnd(env: Env, signalled: set<nat>)
      modifies this`jobs
      ensures Now() == PassIn(old(Now()), env, CloseKillAll(signalled))
      ensures forall k | 0 <= k < |jobs| && RecordIsTrue(env, old(jobs)[k]) ::
        if jobs[k].id in signalled then Closed(env, old(jobs)[k], jobs[k]) && jobs[k].notified == old(jobs)[k].notified
        else jobs[k] == old(jobs)[k]
    {
      for i := 0 to |jobs|
        invariant |jobs| == |old(jobs)|
        invariant forall k | 0 <= k < |jobs| ::
          jobs[k] == if k < i then Passed(CloseKillAll(signalled), env, old(jobs)[k]) else old(jobs)[k]
      {
        if jobs[i].id in signalled {
          jobs := jobs[i := Finalize(env, jobs[i])];
        }
      }
    }
  }

  /** Looking at one job is reaping all and marking that one. */
  lemma LookAtOne(env: Env, jobs: seq<Job>, id: nat, i: Option<nat>)
    requires forall a, b | 0 <= a < b < |jobs| :: jobs[a].id < jobs[b].id
    requires i.Some? ==> i.value < |jobs| && PassAll(ReapAll, env, jobs)[i.value].id == id
    requires i.None? ==> forall k | 0 <= k < |jobs| :: PassAll(ReapAll, env, jobs)[k].id != id
    ensures var reaped := PassAll(ReapAll, env, jobs);
      PassAll(Look(id), env, jobs) == if i.Some? then reaped[i.value := Seen(reaped[i.value])] else reaped
    ensures forall k | 0 <= k < |jobs| :: PassAll(Look(id), env, jobs)[k].id == jobs[k].id
  {
    var reaped, looked := PassAll(ReapAll, env, jobs), PassAll(Look(id), env, jobs);
    forall k | 0 <= k < |jobs|
      ensures looked[k].id == jobs[k].id
      ensures looked[k] == if i == Some(k) then Seen(reaped[k]) else reaped[k]
    {
      assert reaped[k].id == jobs[k].id;
      if i.Some? { assert reaped[i.value].id == jobs[i.value].id; }
    }
  }

  lemma RunningIsUnique(t: Table, id: nat)
    requires Ascending(t)
    ensures forall j | j in t.jobs && j.id == id :: j.status.Running? <==> id in RunningIds(t.jobs)
    ensures id in RunningIds(t.jobs) ==> id in IdsOf(t.jobs)
  {
    forall a, b | a in t.jobs && b in t.jobs && a.id == id && b.id == id ensures a == b {
      SameIdSameJob(t, a, b);
    }
  }
}
