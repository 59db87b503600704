/**
 The lease of a claimed job, with calls interleaved: other sweeps may come while the delete is
 under way, and do not get the job.
 */
module PracticeLease {
  import opened PracticeStore
  import opened PracticeCalls
  import opened PracticeInterleaving

  /** The step marks, enqueues, recovers or requeues the job, and the write is not lost. */
  ghost predicate Writes(s: System, step: Step, id: nat)
    requires Enabled(s, step)
  {
    match step
    case Mark(t, _, write) => !write.lost && s.threads[t].rows[0].id == id
    case RecoverNext(t, write) => !write.lost && IsJobOf(s.store, id, s.threads[t].rows[0].sessionId)
    case EnqueueNext(t, write) => !write.lost && IsJobOf(s.store, id, s.threads[t].jobs[0].sessionId)
    case RequeueRead(t, _, write) => !write.lost && s.threads[t].id == id
    case _ => false
  }

  predicate IsJobOf(st: Store, id: nat, sessionId: nat) {
    id in st.jobs && st.jobs[id].sessionId == sessionId
  }

  ghost predicate Claims(s: System, step: Step, id: nat) {
    step.ClaimBatch? && s.store.Claims(id, step.now, EffectiveLimit(step.limit))
  }

  /** No step of the run writes the job. */
  ghost predicate Unwritten(s: System, steps: seq<Step>, id: nat)
    requires IsRun(s, steps)
    decreases |steps|
  {
    steps == [] || (!Writes(s, steps[0], id) && Unwritten(Apply(s, steps[0]), steps[1..], id))
  }

  ghost function ClaimTimes(s: System, steps: seq<Step>, id: nat): seq<int>
    requires IsRun(s, steps)
    decreases |steps|
  {
    if steps == [] then []
    else (if Claims(s, steps[0], id) then [steps[0].now] else []) + ClaimTimes(Apply(s, steps[0]), steps[1..], id)
  }

  predicate FifteenMinutesApart(times: seq<int>) {
    forall i | 0 <= i < |times| - 1 :: times[i + 1] >= times[i] + 15 * MINUTE
  }

  lemma ApartJoins(t: int, times: seq<int>)
    requires FifteenMinutesApart(times) && times != [] && times[0] >= t + 15 * MINUTE
    ensures FifteenMinutesApart([t] + times)
  {
    var all := [t] + times;
    forall i | 0 <= i < |all| - 1
      ensures all[i + 1] >= all[i] + 15 * MINUTE
    {
      if i > 0 {
        assert times[(i - 1) + 1] >= times[i - 1] + 15 * MINUTE;
      }
    }
  }

  /** The job is running since the claim at `t`. */
  ghost predicate RunningSince(s: System, id: nat, t: int) {
    id in s.store.jobs && s.store.jobs[id].status == Running && s.store.jobs[id].updatedAt == t
  }

  lemma ClaimRuns(st: Store, now: int, limit: nat, id: nat)
    requires st.Valid() && id in st.jobs
    ensures id in st.Claim(now, limit).jobs
    ensures st.Claims(id, now, limit) ==> st.jobs[id].Due(now) && st.Claim(now, limit).jobs[id] == st.jobs[id].Claimed(now)
    ensures !st.Claims(id, now, limit) ==> st.Claim(now, limit).jobs[id] == st.jobs[id]
  {
    ClaimTakesTheFirstDue(st, now, limit, id);
  }

  lemma UpsertElsewhere(st: Store, job: CleanupJob, wall: int, id: nat)
    requires st.Valid() && id in st.jobs && job.sessionId != st.jobs[id].sessionId
    ensures id in st.Upsert(job, wall).jobs && st.Upsert(job, wall).jobs[id] == st.jobs[id]
  {
    st.UpsertWritesOneRow(job, wall);
  }

  lemma EnqueueElsewhere(s: System, step: Step, id: nat)
    requires s.store.Valid() && Enabled(s, step) && id in s.store.jobs
    requires !Writes(s, step, id) && step.EnqueueNext?
    ensures id in StoreAfter(s, step).jobs && StoreAfter(s, step).jobs[id] == s.store.jobs[id]
  {
    if !step.write.lost {
      UpsertElsewhere(s.store, s.threads[step.t].jobs[0], step.write.wall, id);
    }
  }

  lemma RecoverElsewhere(s: System, step: Step, id: nat)
    requires s.store.Valid() && Enabled(s, step) && id in s.store.jobs
    requires !Writes(s, step, id) && step.RecoverNext?
    ensures id in StoreAfter(s, step).jobs && StoreAfter(s, step).jobs[id] == s.store.jobs[id]
  {
    if !step.write.lost {
      var row := s.threads[step.t].rows[0];
      UpsertElsewhere(s.store, NewJob(row.sessionId, row.workspaceId, row.reason, s.threads[step.t].at), step.write.wall, id);
    }
  }

  lemma UnwrittenStepKeepsJob(s: System, step: Step, id: nat)
    requires s.store.Valid() && Enabled(s, step) && id in s.store.jobs
    requires !Writes(s, step, id) && !step.ClaimBatch?
    ensures id in StoreAfter(s, step).jobs && StoreAfter(s, step).jobs[id] == s.store.jobs[id]
  {
    if step.EnqueueNext? {
      EnqueueElsewhere(s, step, id);
    } else if step.RecoverNext? {
      RecoverElsewhere(s, step, id);
    }
  }

  /** A running job that nobody writes is only claimed again when its lease has run out. */
  lemma LeaseStep(s: System, step: Step, id: nat, t: int)
    requires s.store.Valid() && Enabled(s, step) && RunningSince(s, id, t) && !Writes(s, step, id)
    ensures if Claims(s, step, id) then step.now >= t + 15 * MINUTE && RunningSince(Apply(s, step), id, step.now)
            else RunningSince(Apply(s, step), id, t)
  {
    if step.ClaimBatch? {
      ClaimRuns(s.store, step.now, EffectiveLimit(step.limit), id);
    } else {
      UnwrittenStepKeepsJob(s, step, id);
    }
  }

  lemma {:induction false} RunningJobsAreLeased(s: System, steps: seq<Step>, id: nat, t: int)
    requires IsRun(s, steps) && RunningSince(s, id, t) && Unwritten(s, steps, id)
    ensures FifteenMinutesApart([t] + ClaimTimes(s, steps, id))
    decreases |steps|
  {
    if steps != [] {
      var next, later := Apply(s, steps[0]), steps[1..];
      LeaseStep(s, steps[0], id, t);
      if Claims(s, steps[0], id) {
        RunningJobsAreLeased(next, later, id, steps[0].now);
        ApartJoins(t, [steps[0].now] + ClaimTimes(next, later, id));
      } else {
        RunningJobsAreLeased(next, later, id, t);
        assert ClaimTimes(s, steps, id) == ClaimTimes(next, later, id);
      }
    }
  }

  /**
   After a claim of the job at `claim.now`, and as long as nobody marks, recovers, enqueues or
   requeues the job, it is not handed out again within fifteen minutes, to any thread.
   */
  lemma ClaimedJobsAreLeased(s: System, claim: Step, steps: seq<Step>, id: nat)
    requires s.store.Valid() && Enabled(s, claim) && Claims(s, claim, id)
    requires IsRun(Apply(s, claim), steps) && Unwritten(Apply(s, claim), steps, id)
    ensures FifteenMinutesApart([claim.now] + ClaimTimes(Apply(s, claim), steps, id))
  {
    ClaimRuns(s.store, claim.now, EffectiveLimit(claim.limit), id);
    RunningJobsAreLeased(Apply(s, claim), steps, id, claim.now);
  }
}
