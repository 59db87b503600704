/** What runs of the practice service do to one cleanup job: claims, retries, leases. */
module PracticeJobs {
  import opened Ordering
  import opened PracticeStore
  import opened PracticeCalls
  import opened PracticeRuns

  // ----- Which jobs a call can touch

  /** `after` has all jobs of `st` as they were; its new ones are pending, untried, and not scheduled before `from`. */
  ghost predicate Extends(st: Store, after: Store, from: int) {
    && st.nextJobId <= after.nextJobId
    && (forall id | id in st.jobs :: id in after.jobs && after.jobs[id] == st.jobs[id])
    && (forall id | id in after.jobs && id !in st.jobs ::
          id >= st.nextJobId && after.jobs[id].scheduledAt >= from && after.jobs[id].attempts == 0)
  }

  lemma ExtendsIsTransitive(a: Store, b: Store, c: Store, from: int)
    requires Extends(a, b, from) && Extends(b, c, from)
    ensures Extends(a, c, from)
  {
  }

  /** Enqueueing a session that has no job adds one. */
  lemma NewJobExtends(st: Store, job: CleanupJob, wall: int, from: int)
    requires st.Valid() && job.sessionId !in st.jobOf
    requires job.scheduledAt >= from && job.attempts == 0
    ensures Extends(st, st.Upsert(job, wall), from)
    ensures st.Upsert(job, wall).jobOf.Keys == st.jobOf.Keys + {job.sessionId}
    ensures st.Upsert(job, wall).Valid() && st.Upsert(job, wall).sessions == st.sessions
  {
    st.UpsertWritesOneRow(job, wall);
  }

  lemma {:induction false} EnqueueAllExtends(st: Store, order: seq<nat>, now: int, writes: nat -> Write)
    requires st.Valid() && NoRepeats(order)
    requires forall id | id in order :: id in st.sessions && id !in st.jobOf
    ensures Extends(st, EnqueueAll(st, order, now, writes), now)
    decreases |order|
  {
    if order != [] {
      var next := Enqueue(st, st.sessions[order[0]], Expired, now, writes(order[0]));
      if !writes(order[0]).lost {
        NewJobExtends(st, NewJob(order[0], st.sessions[order[0]].runnerRef, Expired, now), writes(order[0]).wall, now);
      }
      forall id | id in order[1..]
        ensures id in next.sessions && id !in next.jobOf
      {
        var i :| 0 < i < |order| && order[i] == id;
        assert order[0] != order[i];
      }
      EnqueueAllExtends(next, order[1..], now, writes);
      ExtendsIsTransitive(st, next, EnqueueAll(next, order[1..], now, writes), now);
    }
  }

  lemma {:induction false} BackfillAllExtends(st: Store, keys: seq<Key>, now: int, writes: nat -> Write)
    requires st.Valid() && Ascending(keys)
    requires forall k | k in keys :: k == Key(0, k.id) && k.id in st.sessions && k.id !in st.jobOf
    ensures Extends(st, BackfillAll(st, keys, now, writes), now)
    decreases |keys|
  {
    if keys != [] && !writes(keys[0].id).lost {
      assert keys[0] in keys;
      var session := st.sessions[keys[0].id];
      var job := NewJob(session.id, session.runnerRef, session.status, BackfillAt(session, now));
      var next := st.Upsert(job, writes(keys[0].id).wall);
      NewJobExtends(st, job, writes(keys[0].id).wall, now);
      LaterKeysDiffer(keys);
      BackfillAllExtends(next, keys[1..], now, writes);
      ExtendsIsTransitive(st, next, BackfillAll(next, keys[1..], now, writes), now);
    }
  }

  lemma LaterKeysDiffer(keys: seq<Key>)
    requires Ascending(keys) && keys != []
    ensures Ascending(keys[1..]) && forall k | k in keys[1..] :: k in keys && Less(keys[0], k)
  {
  }

  lemma MissingKeysAreMissing(st: Store, limit: nat)
    ensures var keys := FirstIds(st.MissingIds(), limit);
            && Ascending(keys)
            && forall k | k in keys :: k == Key(0, k.id) && k.id in st.sessions && st.IsMissing(k.id)
  {
    FirstOfIsFirst(IdKeys(st.MissingIds()), limit);
  }

  lemma EndExtends(st: Store, clock: int, id: nat, status: SessionStatus, t: Readings, update: Write, job: Write)
    requires Inv(st, clock) && t.InOrder(clock)
    requires id in st.sessions && st.sessions[id].status == Active && status != Active
    ensures Extends(st, End(st, st.sessions[id], status, t, update, job), clock)
  {
    if !update.lost {
      var ended := Ended(st.sessions[id], status, t.second);
      var after := st.UpdateSession(ended);
      var at := JobDueAt(status, t.third);
      EndUnfolds(st, id, status, t, update, job);
      ActiveSessionsHaveNoJob(st, clock, id);
      st.UpdateKeepsValid(ended);
      if !job.lost {
        NewJobExtends(after, NewJob(id, ended.runnerRef, status, at), job.wall, clock);
      }
    }
  }

  /** Only sweeps and requeueing touch an existing job; the other calls at most add jobs. */
  lemma OtherCallsExtend(s: State, call: Call)
    requires Inv(s.store, s.clock) && Enabled(s, call)
    requires !call.SweepJobs? && !call.RequeueJob?
    ensures Extends(s.store, Apply(s, call).store, s.clock)
  {
    var st := s.store;
    match call
    case CreateSession(_, _, _, _, _, _, _) =>
    case VisitSession(id, t, update, job) =>
      if id in st.sessions && st.Stale(id, t.first) {
        EndExtends(st, s.clock, id, Expired, t, update, job);
      }
    case VisitWithoutWorkspace(id, t, update, job) =>
      if id in st.sessions && st.sessions[id].status == Active {
        EndExtends(st, s.clock, id, if st.Stale(id, t.first) then Expired else Orphaned, t, update, job);
      }
    case ExpireSessions(now, order, writes) => ExpireExtends(st, s.clock, now, order, writes);
    case ReconcileJobs(now, limit, writes) =>
      MissingKeysAreMissing(st, EffectiveLimit(limit));
      BackfillAllExtends(st, FirstIds(st.MissingIds(), EffectiveLimit(limit)), now, writes);
  }

  lemma ExpireExtends(st: Store, clock: int, now: int, order: seq<nat>, writes: nat -> Write)
    requires Inv(st, clock) && clock <= now && st.ListsStale(order, now)
    ensures Extends(st, ExpireStale(st, now, order, writes), clock)
  {
    var expired := st.Expire(now, now);
    ClockMovesOn(st, clock, now);
    ExpireKeepsInv(st, now);
    forall id | id in order
      ensures id in expired.sessions && id !in expired.jobOf
    {
      ActiveSessionsHaveNoJob(st, clock, id);
    }
    EnqueueAllExtends(expired, order, now, writes);
  }

  // ----- What one call does to one job

  ghost predicate ClaimsIn(s: State, call: Call, id: nat) {
    call.SweepJobs? && s.store.Claims(id, call.now, EffectiveLimit(call.limit))
  }

  datatype JobStep = Untouched | Swept(now: int, outcome: Outcome) | Requeued(now: int, wall: int)

  ghost function StepOf(s: State, call: Call, id: nat): JobStep {
    if ClaimsIn(s, call, id) then Swept(call.now, call.outcomes(id))
    else if call.RequeueJob? && call.id == id && s.store.IsExhausted(id) && !call.write.lost then Requeued(call.now, call.write.wall)
    else Untouched
  }

  /** The job may take this step: only due jobs are swept, only exhausted ones requeued. */
  predicate CanStep(job: CleanupJob, step: JobStep) {
    match step
    case Untouched => true
    case Swept(now, _) => job.Due(now)
    case Requeued(_, _) => job.status == Failed && job.Exhausted()
  }

  function JobAfter(job: CleanupJob, step: JobStep): CleanupJob {
    match step
    case Untouched => job
    case Swept(now, outcome) => Settled(job.Claimed(now), now, outcome)
    case Requeued(now, wall) => job.(status := Pending, attempts := 0, lastError := "", scheduledAt := now, updatedAt := wall)
  }

  lemma JobAfterSweep(st: Store, now: int, limit: int, outcomes: nat -> Outcome, id: nat)
    requires st.Valid() && id in st.jobs
    ensures id in Sweep(st, now, limit, outcomes).jobs
    ensures st.Claims(id, now, EffectiveLimit(limit)) ==> st.jobs[id].Due(now)
    ensures Sweep(st, now, limit, outcomes).jobs[id] ==
            if st.Claims(id, now, EffectiveLimit(limit)) then Settled(st.jobs[id].Claimed(now), now, outcomes(id)) else st.jobs[id]
  {
    SweepEffect(st, now, limit, outcomes);
    ClaimTakesTheFirstDue(st, now, EffectiveLimit(limit), id);
  }

  lemma JobAfterRequeue(st: Store, requeued: nat, now: int, write: Write, id: nat)
    requires id in st.jobs
    ensures var after := RequeueExhausted(st, requeued, now, write);
            && id in after.jobs
            && after.jobs[id] == if requeued == id && st.IsExhausted(id) && !write.lost
                                 then JobAfter(st.jobs[id], Requeued(now, write.wall)) else st.jobs[id]
  {
  }

  /** The job is stored after the call as its step leaves it, and may take that step. */
  ghost predicate TakesStep(s: State, call: Call, id: nat)
    requires s.store.Valid() && id in s.store.jobs
  {
    && id in Apply(s, call).store.jobs
    && CanStep(s.store.jobs[id], StepOf(s, call, id))
    && Apply(s, call).store.jobs[id] == JobAfter(s.store.jobs[id], StepOf(s, call, id))
  }

  lemma SweepTakesStep(s: State, call: Call, id: nat)
    requires s.store.Valid() && call.SweepJobs? && id in s.store.jobs
    ensures TakesStep(s, call, id)
  {
    JobAfterSweep(s.store, call.now, call.limit, call.outcomes, id);
  }

  lemma RequeueTakesStep(s: State, call: Call, id: nat)
    requires s.store.Valid() && call.RequeueJob? && id in s.store.jobs
    ensures TakesStep(s, call, id)
  {
    JobAfterRequeue(s.store, call.id, call.now, call.write, id);
  }

  lemma OtherCallKeepsJob(s: State, call: Call, id: nat)
    requires Inv(s.store, s.clock) && Enabled(s, call)
    requires !call.SweepJobs? && !call.RequeueJob?
    requires id in s.store.jobs
    ensures id in Apply(s, call).store.jobs && Apply(s, call).store.jobs[id] == s.store.jobs[id]
  {
    OtherCallsExtend(s, call);
  }

  lemma OtherCallTakesStep(s: State, call: Call, id: nat)
    requires s.store.Valid() && id in s.store.jobs
    requires !call.SweepJobs? && !call.RequeueJob?
    requires id in Apply(s, call).store.jobs && Apply(s, call).store.jobs[id] == s.store.jobs[id]
    ensures TakesStep(s, call, id)
  {
    assert StepOf(s, call, id) == Untouched;
  }

  /** A call claims and settles a job, or requeues it, or leaves it untouched. */
  lemma JobAfterCall(s: State, call: Call, id: nat)
    requires Inv(s.store, s.clock) && Enabled(s, call)
    requires id in s.store.jobs
    ensures TakesStep(s, call, id)
  {
    if call.SweepJobs? {
      SweepTakesStep(s, call, id);
    } else if call.RequeueJob? {
      RequeueTakesStep(s, call, id);
    } else {
      OtherCallKeepsJob(s, call, id);
      OtherCallTakesStep(s, call, id);
    }
  }

  ghost function StepsOf(s: State, calls: seq<Call>, id: nat): seq<JobStep>
    requires IsRun(s, calls)
    decreases |calls|
  {
    if calls == [] then [] else [StepOf(s, calls[0], id)] + StepsOf(Apply(s, calls[0]), calls[1..], id)
  }

  predicate CanTake(job: CleanupJob, steps: seq<JobStep>)
    decreases |steps|
  {
    steps == [] || (CanStep(job, steps[0]) && CanTake(JobAfter(job, steps[0]), steps[1..]))
  }

  function JobAfterAll(job: CleanupJob, steps: seq<JobStep>): CleanupJob
    decreases |steps|
  {
    if steps == [] then job else JobAfterAll(JobAfter(job, steps[0]), steps[1..])
  }

  /** A run of the service is, to each job, a run of claims and requeues. */
  lemma {:induction false} RunOfOneJob(s: State, calls: seq<Call>, id: nat)
    requires Inv(s.store, s.clock) && IsRun(s, calls)
    requires id in s.store.jobs
    ensures CanTake(s.store.jobs[id], StepsOf(s, calls, id))
    ensures id in Run(s, calls).store.jobs
    ensures Run(s, calls).store.jobs[id] == JobAfterAll(s.store.jobs[id], StepsOf(s, calls, id))
    decreases |calls|
  {
    if calls != [] {
      CallKeepsInv(s, calls[0]);
      JobAfterCall(s, calls[0], id);
      RunOfOneJob(Apply(s, calls[0]), calls[1..], id);
    }
  }

  function ClaimTimes(steps: seq<JobStep>): seq<int> {
    if steps == [] then [] else (if steps[0].Swept? then [steps[0].now] else []) + ClaimTimes(steps[1..])
  }

  // ----- Backoff

  /** The job's last claim was at `t`, and it may not be claimed again before its retry delay has passed. */
  predicate Cooling(job: CleanupJob, t: int) {
    && 1 <= job.attempts <= MAX_ATTEMPTS
    && match job.status
       case Running => job.updatedAt == t
       case Pending => job.attempts < MAX_ATTEMPTS ==> job.scheduledAt >= t + RetryDelay(job.attempts)
       case Failed => job.attempts < MAX_ATTEMPTS ==> job.scheduledAt >= t + RetryDelay(job.attempts)
       case Succeeded => false
  }

  /** Every delete for the job fails, and no operator requeues it. */
  predicate KeepsFailing(steps: seq<JobStep>) {
    steps == [] || (
      && (steps[0].Swept? ==> !steps[0].outcome.deleted)
      && !steps[0].Requeued?
      && KeepsFailing(steps[1..]))
  }

  lemma ClaimStartsCooling(job: CleanupJob, now: int, o: Outcome)
    requires job.Due(now) && !o.deleted
    ensures Cooling(Settled(job.Claimed(now), now, o), now)
    ensures Settled(job.Claimed(now), now, o).attempts == job.attempts + 1
  {
  }

  lemma CoolingJobsAreNotDue(job: CleanupJob, t: int, now: int)
    requires Cooling(job, t) && job.Due(now)
    ensures now >= t + RetryDelay(job.attempts) && job.attempts < MAX_ATTEMPTS
  {
  }

  /** `times` are claims number `first`, `first` + 1, ... of one job, each at least the retry delay after the one before. */
  predicate Spaced(times: seq<int>, first: nat) {
    forall i | 0 <= i < |times| - 1 :: times[i + 1] >= times[i] + RetryDelay(first + i)
  }

  lemma SpacedJoins(t: int, times: seq<int>, first: nat)
    requires times != [] && times[0] >= t + RetryDelay(first) && Spaced(times, first + 1)
    ensures Spaced([t] + times, first)
  {
    var all := [t] + times;
    forall i | 0 <= i < |all| - 1
      ensures all[i + 1] >= all[i] + RetryDelay(first + i)
    {
      if i > 0 {
        assert times[i] >= times[i - 1] + RetryDelay(first + 1 + (i - 1));
      }
    }
  }

  lemma {:induction false} BackoffFrom(job: CleanupJob, steps: seq<JobStep>, t: int)
    requires CanTake(job, steps) && KeepsFailing(steps) && Cooling(job, t)
    ensures Spaced([t] + ClaimTimes(steps), job.attempts)
    ensures job.attempts + |ClaimTimes(steps)| <= MAX_ATTEMPTS
    decreases |steps|
  {
    if steps != [] {
      var step := steps[0];
      if step.Swept? {
        CoolingJobsAreNotDue(job, t, step.now);
        ClaimStartsCooling(job, step.now, step.outcome);
        BackoffFrom(JobAfter(job, step), steps[1..], step.now);
        SpacedJoins(t, [step.now] + ClaimTimes(steps[1..]), job.attempts);
      } else {
        BackoffFrom(job, steps[1..], t);
        assert ClaimTimes(steps) == ClaimTimes(steps[1..]);
      }
    }
  }

  lemma {:induction false} FirstClaimThenBackoff(job: CleanupJob, steps: seq<JobStep>)
    requires CanTake(job, steps) && KeepsFailing(steps) && job.attempts <= MAX_ATTEMPTS
    ensures Spaced(ClaimTimes(steps), job.attempts + 1)
    ensures job.attempts + |ClaimTimes(steps)| <= MAX_ATTEMPTS
    decreases |steps|
  {
    if steps != [] {
      var step := steps[0];
      if step.Swept? {
        ClaimStartsCooling(job, step.now, step.outcome);
        BackoffFrom(JobAfter(job, step), steps[1..], step.now);
      } else {
        FirstClaimThenBackoff(job, steps[1..]);
        assert ClaimTimes(steps) == ClaimTimes(steps[1..]);
      }
    }
  }

  /** Minutes between one attempt and the next. */
  const GAPS := [1, 5, 15, 15]

  /** The claim times of a job with `done` attempts behind it: spaced, at most five, the fifth at least 36 minutes after the first. */
  predicate BacksOff(times: seq<int>, done: nat) {
    && done + |times| <= 5
    && (forall i | 0 <= i < |times| - 1 :: times[i + 1] >= times[i] + GAPS[done + i] * MINUTE)
    && (|times| == 5 ==> times[4] >= times[0] + 36 * MINUTE)
  }

  /**
   While a job's deletes keep failing, its claims are at least 1, 5, 15 and 15 minutes apart and
   there are at most five, whichever of the writes after each failure are lost.
   */
  lemma RetriesBackOff(s: State, calls: seq<Call>, id: nat)
    requires Inv(s.store, s.clock) && IsRun(s, calls)
    requires id in s.store.jobs && KeepsFailing(StepsOf(s, calls, id))
    ensures BacksOff(ClaimTimes(StepsOf(s, calls, id)), s.store.jobs[id].attempts)
  {
    AttemptsAreAtMostFive(s.store, s.clock, id);
    RunOfOneJob(s, calls, id);
    FailingJobsBackOff(s.store.jobs[id], StepsOf(s, calls, id));
  }

  lemma FailingJobsBackOff(job: CleanupJob, steps: seq<JobStep>)
    requires CanTake(job, steps) && KeepsFailing(steps) && job.attempts <= MAX_ATTEMPTS
    ensures BacksOff(ClaimTimes(steps), job.attempts)
  {
    FirstClaimThenBackoff(job, steps);
    if |ClaimTimes(steps)| == MAX_ATTEMPTS {
      FiveTake36Minutes(ClaimTimes(steps));
    }
  }

  lemma AttemptsAreAtMostFive(st: Store, clock: int, id: nat)
    requires Inv(st, clock) && id in st.jobs
    ensures st.jobs[id].attempts <= MAX_ATTEMPTS
  {
    assert JobOk(st.sessions, clock, st.jobs[id]);
  }

  lemma FiveTake36Minutes(times: seq<int>)
    requires Spaced(times, 1) && |times| == MAX_ATTEMPTS
    ensures times[4] >= times[0] + 36 * MINUTE
  {
    assert times[0 + 1] >= times[0] + MINUTE;
    assert times[1 + 1] >= times[1] + 5 * MINUTE;
    assert times[2 + 1] >= times[2] + 15 * MINUTE;
    assert times[3 + 1] >= times[3] + 15 * MINUTE;
  }

  // ----- One attempt

  /** When the job can be claimed, at any time, if nothing else happens to it. */
  ghost predicate DueFrom(job: CleanupJob, from: int) {
    forall now: int :: job.Due(now) <==> now >= from
  }

  /**
   What a claimed job says after its delete. It may be claimed again, if it has attempts left,
   1, 5, 15 and 15 minutes after a failure, at once after a delete whose mark was lost but
   recovered, and after fifteen minutes if nothing could be written; a success is final.
   */
  lemma OutcomeOfOneAttempt(job: CleanupJob, now: int, o: Outcome)
    requires job.Due(now)
    ensures var after := Settled(job.Claimed(now), now, o);
            && after.attempts == job.attempts + 1
            && after.id == job.id && after.sessionId == job.sessionId
            && after.workspaceId == job.workspaceId && after.reason == job.reason
            && (after.status == Succeeded <==> !o.mark.lost && o.deleted)
            && (after.status == Failed <==> !o.mark.lost && !o.deleted)
            && (after.status == Pending <==> o.mark.lost && !o.recovery.lost)
            && (after.status == Running <==> o.mark.lost && o.recovery.lost)
            && after.lastError == (if after.status == Failed then o.error else "")
            && (after.attempts < 5 ==>
                  && (after.status == Failed || (after.status == Pending && !o.deleted) ==>
                        DueFrom(after, now + GAPS[job.attempts] * MINUTE))
                  && (after.status == Pending && o.deleted ==> DueFrom(after, now))
                  && (after.status == Running ==> DueFrom(after, now + 15 * MINUTE)))
            && (after.attempts >= 5 || after.status == Succeeded ==> forall later: int :: !after.Due(later))
  {
  }

  // ----- Attempts

  /** At the end of a run without a requeue, the attempts are the claims; there are never more than five. */
  lemma {:induction false} AttemptsCountClaims(job: CleanupJob, steps: seq<JobStep>)
    requires CanTake(job, steps) && job.attempts <= MAX_ATTEMPTS
    ensures JobAfterAll(job, steps).attempts <= MAX_ATTEMPTS
    ensures (forall step | step in steps :: !step.Requeued?) ==> JobAfterAll(job, steps).attempts == job.attempts + |ClaimTimes(steps)|
    decreases |steps|
  {
    if steps != [] {
      AttemptsCountClaims(JobAfter(job, steps[0]), steps[1..]);
      assert steps[0] in steps;
    }
  }

  /** In a run without a requeue of the job, the attempts it has used are the claims of it. */
  lemma AttemptsAreClaims(s: State, calls: seq<Call>, id: nat)
    requires Inv(s.store, s.clock) && IsRun(s, calls) && id in s.store.jobs
    requires forall step | step in StepsOf(s, calls, id) :: !step.Requeued?
    ensures var after := Run(s, calls).store.jobs;
            && id in after && after[id].attempts <= 5
            && after[id].attempts == s.store.jobs[id].attempts + |ClaimTimes(StepsOf(s, calls, id))|
  {
    AttemptsAreAtMostFive(s.store, s.clock, id);
    RunOfOneJob(s, calls, id);
    AttemptsCountClaims(s.store.jobs[id], StepsOf(s, calls, id));
  }

  // ----- The lease

  lemma {:induction false} LeaseFrom(job: CleanupJob, steps: seq<JobStep>)
    requires CanTake(job, steps) && job.status == Running
    ensures ClaimTimes(steps) != [] ==> ClaimTimes(steps)[0] >= job.updatedAt + LEASE_TIMEOUT
    decreases |steps|
  {
    if steps != [] && !steps[0].Swept? {
      LeaseFrom(job, steps[1..]);
    }
  }

  /** A job whose mark and recovery were lost is not handed out again for fifteen minutes after its claim. */
  lemma LostJobsAreLeased(s: State, sweep: Call, calls: seq<Call>, id: nat)
    requires Inv(s.store, s.clock) && Enabled(s, sweep) && ClaimsIn(s, sweep, id)
    requires sweep.outcomes(id).mark.lost && sweep.outcomes(id).recovery.lost
    requires IsRun(Apply(s, sweep), calls)
    ensures var times := ClaimTimes(StepsOf(Apply(s, sweep), calls, id)); times != [] ==> times[0] >= sweep.now + 15 * MINUTE
  {
    CallKeepsInv(s, sweep);
    JobAfterCall(s, sweep, id);
    RunOfOneJob(Apply(s, sweep), calls, id);
    LeaseFrom(Apply(s, sweep).store.jobs[id], StepsOf(Apply(s, sweep), calls, id));
  }

  // ----- Exhausted jobs

  /** Out of attempts, but not marked as failed. */
  predicate Stranded(job: CleanupJob) {
    job.attempts >= MAX_ATTEMPTS && (job.status == Pending || job.status == Running)
  }

  predicate Inert(job: CleanupJob) {
    job.status == Succeeded || Stranded(job)
  }

  /** Exactly the succeeded and the stranded jobs have no step left. */
  lemma InertJobsHaveNoStep(job: CleanupJob)
    ensures Inert(job) <==> forall step | CanStep(job, step) :: step.Untouched?
  {
    var late := Swept(if job.status == Running then job.updatedAt + LEASE_TIMEOUT else job.scheduledAt,
                      Outcome(true, "", Write(false, 0), Write(false, 0)));
    assert !Inert(job) ==> CanStep(job, late) || CanStep(job, Requeued(0, 0));
  }

  lemma {:induction false} InertJobsStay(job: CleanupJob, steps: seq<JobStep>)
    requires CanTake(job, steps) && Inert(job)
    ensures JobAfterAll(job, steps) == job
    ensures ClaimTimes(steps) == []
    decreases |steps|
  {
    if steps != [] {
      InertJobsStay(job, steps[1..]);
    }
  }

  /** A job that has succeeded is never run again; one that is stranded is never claimed, listed or requeued, whatever happens. */
  lemma InertForever(s: State, calls: seq<Call>, id: nat)
    requires Inv(s.store, s.clock) && IsRun(s, calls)
    requires id in s.store.jobs && Inert(s.store.jobs[id])
    ensures ClaimTimes(StepsOf(s, calls, id)) == []
    ensures var after := Run(s, calls).store;
            id in after.jobs && after.jobs[id] == s.store.jobs[id] && !after.IsExhausted(id)
  {
    RunOfOneJob(s, calls, id);
    InertJobsStay(s.store.jobs[id], StepsOf(s, calls, id));
  }

  /**
   A fifth attempt leaves the job stranded exactly when its mark is lost, whether the workspace
   was deleted or not; a failed one whose mark is written is listed for operators, with its error.
   */
  lemma FifthAttemptIsStrandedIff(st: Store, now: int, limit: int, outcomes: nat -> Outcome, id: nat)
    requires st.Valid() && st.Claims(id, now, EffectiveLimit(limit)) && st.jobs[id].attempts == MAX_ATTEMPTS - 1
    ensures var after, o := Sweep(st, now, limit, outcomes), outcomes(id);
            && id in after.jobs
            && (Stranded(after.jobs[id]) <==> o.mark.lost)
            && (after.jobs[id].status == Succeeded <==> !o.mark.lost && o.deleted)
            && (after.IsExhausted(id) <==> !o.mark.lost && !o.deleted)
            && (after.IsExhausted(id) ==> after.jobs[id].lastError == o.error && after.jobs[id].scheduledAt == now)
  {
    JobAfterSweep(st, now, limit, outcomes, id);
  }

  /** The call is a sweep that takes the job's last attempt and loses the mark of its result. */
  ghost predicate LosesLastMarkNow(s: State, call: Call, id: nat) {
    ClaimsIn(s, call, id) && s.store.jobs[id].attempts == MAX_ATTEMPTS - 1 && call.outcomes(id).mark.lost
  }

  /** Some sweep of the run takes the job's last attempt and loses the mark of its result. */
  ghost predicate LosesLastMark(s: State, calls: seq<Call>, id: nat)
    requires IsRun(s, calls)
    decreases |calls|
  {
    calls != [] && (
      || LosesLastMarkNow(s, calls[0], id)
      || LosesLastMark(Apply(s, calls[0]), calls[1..], id))
  }

  lemma StepStrandsIff(job: CleanupJob, step: JobStep)
    requires CanStep(job, step) && !Stranded(job)
    ensures Stranded(JobAfter(job, step)) <==> step.Swept? && job.attempts == MAX_ATTEMPTS - 1 && step.outcome.mark.lost
  {
  }

  lemma LastMarkStep(s: State, call: Call, id: nat)
    requires id in s.store.jobs
    ensures var step := StepOf(s, call, id);
            LosesLastMarkNow(s, call, id) <==> step.Swept? && s.store.jobs[id].attempts == MAX_ATTEMPTS - 1 && step.outcome.mark.lost
  {
  }

  lemma CallStrandsIff(s: State, call: Call, id: nat)
    requires Inv(s.store, s.clock) && Enabled(s, call)
    requires id in s.store.jobs && !Stranded(s.store.jobs[id])
    ensures id in Apply(s, call).store.jobs
    ensures Stranded(Apply(s, call).store.jobs[id]) <==> LosesLastMarkNow(s, call, id)
  {
    var job, step := s.store.jobs[id], StepOf(s, call, id);
    JobAfterCall(s, call, id);
    LastMarkStep(s, call, id);
    StepStrandsIff(job, step);
  }

  lemma NewJobsAreNotStranded(s: State, call: Call, id: nat)
    requires Inv(s.store, s.clock) && Enabled(s, call) && id !in s.store.jobs
    ensures id in Apply(s, call).store.jobs ==> !Stranded(Apply(s, call).store.jobs[id])
    ensures !LosesLastMarkNow(s, call, id)
  {
    if call.SweepJobs? {
      SweepEffect(s.store, call.now, call.limit, call.outcomes);
    } else if !call.RequeueJob? {
      OtherCallsExtend(s, call);
    }
  }

  /** A job is stranded exactly when some sweep of the run took its last attempt and lost the mark, and it stays so. */
  lemma {:induction false} StrandedIff(s: State, calls: seq<Call>, id: nat)
    requires Inv(s.store, s.clock) && IsRun(s, calls)
    requires id in s.store.jobs ==> !Stranded(s.store.jobs[id])
    ensures (id in Run(s, calls).store.jobs && Stranded(Run(s, calls).store.jobs[id])) <==> LosesLastMark(s, calls, id)
    decreases |calls|
  {
    if calls != [] {
      var next := Apply(s, calls[0]);
      CallKeepsInv(s, calls[0]);
      if id in s.store.jobs {
        CallStrandsIff(s, calls[0], id);
      } else {
        NewJobsAreNotStranded(s, calls[0], id);
      }
      if id in next.store.jobs && Stranded(next.store.jobs[id]) {
        InertForever(next, calls[1..], id);
      } else {
        StrandedIff(next, calls[1..], id);
      }
    }
  }
}
