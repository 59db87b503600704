/** Runs with interleaved calls that end where no run of atomic calls does. */
module PracticeCounterexamples {
  import opened Common
  import opened PracticeStore
  import opened PracticeCalls
  import opened PracticeInterleaving
  import PracticeAlone
  import PracticeJobs
  import PracticeRuns

  // ----- Single steps from a reachable state

  lemma Begins(s: System, t: nat, ref: string, now: int)
    requires Reachable(s) && s.store.Valid() && t !in s.threads && ref !in s.issued
    ensures Reachable(s.(threads := s.threads[t := Creating(NewSession(1, 1, 1, ref, "", now))], issued := s.issued + {ref}))
  {
    var step := BeginCreate(t, 1, 1, 1, ref, "", now);
    assert s.deletes + {} == s.deletes;
    ReachableGoesOn(s, step);
  }

  lemma Finishes(s: System, t: nat, session: PracticeSession)
    requires Reachable(s) && IsAt(s, t, Creating(session))
    ensures Reachable(s.(store := s.store.CreateSession(session), threads := s.threads - {t}))
  {
    assert s.issued + {} == s.issued && s.deletes + {} == s.deletes;
    ReachableGoesOn(s, FinishCreate(t, WRITTEN));
  }

  lemma Reads(s: System, t: nat, id: nat)
    requires Reachable(s) && s.store.Valid() && t !in s.threads && id in s.store.sessions
    ensures Reachable(s.(threads := s.threads[t := Checking(s.store.sessions[id])]))
  {
    PracticeAlone.MovesOnly(s, Read(t, id), Checking(s.store.sessions[id]));
    ReachableGoesOn(s, Read(t, id));
  }

  lemma Checks(s: System, t: nat, copy: PracticeSession, now: int)
    requires Reachable(s) && IsAt(s, t, Checking(copy)) && copy.status == Active
    ensures Reachable(s.(threads := s.threads[t := if copy.expiresAt <= now then Ending(copy, Expired) else Using(copy)]))
  {
    PracticeAlone.MovesOnly(s, Check(t, now), if copy.expiresAt <= now then Ending(copy, Expired) else Using(copy));
    ReachableGoesOn(s, Check(t, now));
  }

  lemma Misses(s: System, t: nat, copy: PracticeSession)
    requires Reachable(s) && IsAt(s, t, Using(copy))
    ensures Reachable(s.(threads := s.threads[t := Ending(copy, Orphaned)]))
  {
    PracticeAlone.MovesOnly(s, MissWorkspace(t), Ending(copy, Orphaned));
    ReachableGoesOn(s, MissWorkspace(t));
  }

  lemma Ends(s: System, t: nat, copy: PracticeSession, status: SessionStatus, now: int)
    requires Reachable(s) && IsAt(s, t, Ending(copy, status)) && copy.id in s.store.sessions
    ensures Reachable(s.(store := s.store.UpdateSession(Ended(copy, status, now)),
                         threads := s.threads[t := Enqueueing([NewJob(copy.id, copy.runnerRef, status, JobDueAt(status, now))], true)]))
  {
    assert s.issued + {} == s.issued && s.deletes + {} == s.deletes;
    ReachableGoesOn(s, EndSession(t, now, now, WRITTEN));
  }

  lemma Enqueues(s: System, t: nat, job: CleanupJob)
    requires Reachable(s) && IsAt(s, t, Enqueueing([job], true))
    ensures Reachable(s.(store := s.store.Upsert(job, 0), threads := s.threads - {t}))
  {
    assert s.issued + {} == s.issued && s.deletes + {} == s.deletes;
    ReachableGoesOn(s, EnqueueNext(t, WRITTEN));
  }

  lemma StartIsReachable()
    ensures Reachable(START)
  {
    assert IsRun(START, []);
  }

  // ----- Two threads read a session, and both go on to end it

  const OPENED := NewSession(1, 1, 1, "w", "", 0).(id := 1)

  function Opened(session: PracticeSession, threads: map<nat, Local>): System {
    System(EMPTY.(nextId := 2, sessions := map[1 := session], current := map[1 := 1]), threads, {"w"}, {})
  }

  /** The threads in between, with the session still active. */
  function Between(one: Local, two: Local): System {
    Opened(OPENED, map[1 := one, 2 := two])
  }

  const ORPHANED := Ended(OPENED, Orphaned, SESSION_TTL)
  const EXPIRED := Ended(OPENED, Expired, SESSION_TTL)
  const ORPHAN_JOB := NewJob(1, "w", Orphaned, SESSION_TTL + ORPHAN_CLEANUP_GRACE)
  const EXPIRY_JOB := NewJob(1, "w", Expired, SESSION_TTL)

  lemma SessionIsCreated()
    ensures Reachable(Opened(OPENED, map[]))
  {
    var begun := System(EMPTY, map[1 := Creating(NewSession(1, 1, 1, "w", "", 0))], {"w"}, {});
    StartIsReachable();
    Begins(START, 1, "w", 0);
    assert {} + {"w"} == {"w"};
    Finishes(begun, 1, NewSession(1, 1, 1, "w", "", 0));
    assert begun.(store := EMPTY.CreateSession(NewSession(1, 1, 1, "w", "", 0)), threads := map[]) == Opened(OPENED, map[]);
  }

  lemma BothRead()
    ensures Reachable(Between(Checking(OPENED), Checking(OPENED)))
  {
    SessionIsCreated();
    Reads(Opened(OPENED, map[]), 1, 1);
    Reads(Opened(OPENED, map[1 := Checking(OPENED)]), 2, 1);
  }

  lemma OneMissesTheWorkspace()
    ensures Reachable(Between(Ending(OPENED, Orphaned), Checking(OPENED)))
  {
    BothRead();
    BetweenIsOpened(Checking(OPENED), Checking(OPENED));
    Checks(Between(Checking(OPENED), Checking(OPENED)), 1, OPENED, 0);
    BetweenIsOpened(Using(OPENED), Checking(OPENED));
    Misses(Between(Using(OPENED), Checking(OPENED)), 1, OPENED);
  }

  lemma BetweenIsOpened(one: Local, two: Local)
    ensures IsAt(Between(one, two), 1, one) && IsAt(Between(one, two), 2, two)
    ensures forall next :: Between(one, two).(threads := Between(one, two).threads[1 := next]) == Between(next, two)
    ensures forall next :: Between(one, two).(threads := Between(one, two).threads[2 := next]) == Between(one, next)
  {
  }

  lemma BothAreEnding()
    ensures Reachable(Between(Ending(OPENED, Orphaned), Ending(OPENED, Expired)))
  {
    OneMissesTheWorkspace();
    BetweenIsOpened(Ending(OPENED, Orphaned), Checking(OPENED));
    Checks(Between(Ending(OPENED, Orphaned), Checking(OPENED)), 2, OPENED, SESSION_TTL);
  }

  // ----- An orphaned session becomes expired

  const HALF_ORPHANED := Opened(ORPHANED, map[1 := Enqueueing([ORPHAN_JOB], true), 2 := Ending(OPENED, Expired)])

  lemma UpdateOpened(copy: PracticeSession, session: PracticeSession, status: SessionStatus)
    requires session.id == 1 && copy.id == 1 && copy.userId == 1 && status != Active
    ensures Opened(session, map[]).store.Valid()
    ensures Opened(session, map[]).store.UpdateSession(Ended(copy, status, SESSION_TTL)) == Opened(Ended(copy, status, SESSION_TTL), map[]).store
  {
  }

  /** Thread `t` ends the session from its copy, whatever has become of it. */
  lemma EndsCopy(copy: PracticeSession, session: PracticeSession, threads: map<nat, Local>, t: nat, status: SessionStatus)
    requires session.id == 1 && copy.id == 1 && copy.userId == 1 && status != Active
    requires t in threads && threads[t] == Ending(copy, status) && Reachable(Opened(session, threads))
    ensures Reachable(Opened(Ended(copy, status, SESSION_TTL),
                             threads[t := Enqueueing([NewJob(1, copy.runnerRef, status, JobDueAt(status, SESSION_TTL))], true)]))
  {
    UpdateOpened(copy, session, status);
    Ends(Opened(session, threads), t, copy, status, SESSION_TTL);
  }

  lemma Replaced(one: Local, two: Local, next: Local)
    ensures map[1 := one, 2 := two][1 := next] == map[1 := next, 2 := two]
    ensures map[1 := one, 2 := two][2 := next] == map[1 := one, 2 := next]
  {
  }

  lemma OneOrphansIt()
    ensures Reachable(HALF_ORPHANED)
  {
    BothAreEnding();
    Replaced(Ending(OPENED, Orphaned), Ending(OPENED, Expired), Enqueueing([ORPHAN_JOB], true));
    EndsCopy(OPENED, OPENED, map[1 := Ending(OPENED, Orphaned), 2 := Ending(OPENED, Expired)], 1, Orphaned);
  }

  /** Session 1 is orphaned, and the step makes it expired. */
  ghost predicate TurnsExpired(s: System, step: Step) {
    && s.store.Valid() && Enabled(s, step)
    && 1 in s.store.sessions && s.store.sessions[1].status == Orphaned
    && 1 in StoreAfter(s, step).sessions && StoreAfter(s, step).sessions[1].status == Expired
  }

  lemma OrphanedBecomesExpired()
    ensures Reachable(HALF_ORPHANED) && TurnsExpired(HALF_ORPHANED, EndSession(2, SESSION_TTL, SESSION_TTL, WRITTEN))
  {
    OneOrphansIt();
  }

  // ----- An orphaned session's job is claimed within the grace period

  /** The store with one session and one job. */
  function WithJob(session: PracticeSession, job: CleanupJob): Store {
    Store(2, 2, map[1 := session], map[1 := 1], map[1 := job], map[1 := 1])
  }

  function Jobbed(session: PracticeSession, job: CleanupJob, threads: map<nat, Local>): System {
    System(WithJob(session, job), threads, {"w"}, {})
  }

  const BOTH_ENQUEUE := Opened(ORPHANED, map[1 := Enqueueing([ORPHAN_JOB], true), 2 := Enqueueing([EXPIRY_JOB], true)])

  lemma OtherEndsFirst()
    ensures Reachable(Opened(EXPIRED, map[1 := Ending(OPENED, Orphaned), 2 := Enqueueing([EXPIRY_JOB], true)]))
  {
    BothAreEnding();
    Replaced(Ending(OPENED, Orphaned), Ending(OPENED, Expired), Enqueueing([EXPIRY_JOB], true));
    EndsCopy(OPENED, OPENED, map[1 := Ending(OPENED, Orphaned), 2 := Ending(OPENED, Expired)], 2, Expired);
  }

  lemma BothEnd()
    ensures Reachable(BOTH_ENQUEUE)
  {
    OtherEndsFirst();
    Replaced(Ending(OPENED, Orphaned), Enqueueing([EXPIRY_JOB], true), Enqueueing([ORPHAN_JOB], true));
    EndsCopy(OPENED, EXPIRED, map[1 := Ending(OPENED, Orphaned), 2 := Enqueueing([EXPIRY_JOB], true)], 1, Orphaned);
  }

  /** Thread `t` enqueues the first job of the session. */
  lemma EnqueuesFirst(session: PracticeSession, threads: map<nat, Local>, t: nat, job: CleanupJob)
    requires session.id == 1 && job.sessionId == 1 && job.updatedAt == 0
    requires t in threads && threads[t] == Enqueueing([job], true) && Reachable(Opened(session, threads))
    ensures Reachable(Jobbed(session, job.(id := 1), threads - {t}))
  {
    UpdateOpened(session.(userId := 1), session, Expired);
    Enqueues(Opened(session, threads), t, job);
    assert Opened(session, threads).store.Upsert(job, 0) == WithJob(session, job.(id := 1));
  }

  lemma WithJobIsValid(session: PracticeSession, job: CleanupJob)
    requires session.id == 1 && IsTheJob(job)
    ensures WithJob(session, job).Valid()
  {
  }

  /** The other thread enqueues its own. */
  lemma EnqueuesSecond(session: PracticeSession, first: CleanupJob, threads: map<nat, Local>, t: nat, job: CleanupJob)
    requires session.id == 1 && IsTheJob(first) && first.attempts == 0 && job.sessionId == 1 && job.updatedAt == 0
    requires job.attempts == 0 && job.lastError == ""
    requires t in threads && threads[t] == Enqueueing([job], true) && Reachable(Jobbed(session, first, threads))
    ensures Reachable(Jobbed(session, job.(id := 1), threads - {t}))
  {
    WithJobIsValid(session, first);
    Enqueues(Jobbed(session, first, threads), t, job);
    assert WithJob(session, first).Upsert(job, 0) == WithJob(session, job.(id := 1));
  }

  lemma Left(one: Local, two: Local)
    ensures map[1 := one, 2 := two] - {1} == map[2 := two]
    ensures map[2 := two] - {2} == map[]
  {
  }

  lemma BothEnqueue()
    ensures Reachable(Jobbed(ORPHANED, EXPIRY_JOB.(id := 1), map[]))
  {
    BothEnd();
    Left(Enqueueing([ORPHAN_JOB], true), Enqueueing([EXPIRY_JOB], true));
    EnqueuesFirst(ORPHANED, map[1 := Enqueueing([ORPHAN_JOB], true), 2 := Enqueueing([EXPIRY_JOB], true)], 1, ORPHAN_JOB);
    EnqueuesSecond(ORPHANED, ORPHAN_JOB.(id := 1), map[2 := Enqueueing([EXPIRY_JOB], true)], 2, EXPIRY_JOB);
  }

  lemma TheOnlyJobIsClaimed(st: Store, job: CleanupJob, now: int)
    requires st.Valid() && st.jobs == map[1 := job] && job.Due(now)
    ensures st.Claims(1, now, 1)
  {
    ClaimTakesTheFirstDue(st, now, 1, 1);
    st.ClaimKeysNameJobs(now, 1);
    var keys := st.ClaimKeys(now, 1);
    assert forall k | k in keys :: k == job.Key();
  }

  /** The session is orphaned, has ended just now, and a sweep claims its job at once. */
  lemma OrphansCanLoseTheirGrace()
    ensures var s := Jobbed(ORPHANED, EXPIRY_JOB.(id := 1), map[]);
            && Reachable(s) && s.store.sessions[1].status == Orphaned && s.store.sessions[1].endedAt == Some(SESSION_TTL)
            && s.store.jobs[1].sessionId == 1 && s.store.Claims(1, SESSION_TTL, 1)
  {
    BothEnqueue();
    TheOnlyJobIsClaimed(WithJob(ORPHANED, EXPIRY_JOB.(id := 1)), EXPIRY_JOB.(id := 1), SESSION_TTL);
  }

  // ----- Jobs that are done with come back

  /** A reachable state with the orphaned session and its job, where thread 2 still holds the active session. */
  ghost predicate StillHeld(s: System, job: CleanupJob) {
    Reachable(s) && s.store == WithJob(ORPHANED, job) && s.threads == map[2 := Ending(OPENED, Expired)]
  }

  lemma TheJobIsEnqueued()
    ensures StillHeld(Jobbed(ORPHANED, ORPHAN_JOB.(id := 1), map[2 := Ending(OPENED, Expired)]), ORPHAN_JOB.(id := 1))
  {
    OneOrphansIt();
    Left(Enqueueing([ORPHAN_JOB], true), Ending(OPENED, Expired));
    EnqueuesFirst(ORPHANED, map[1 := Enqueueing([ORPHAN_JOB], true), 2 := Ending(OPENED, Expired)], 1, ORPHAN_JOB);
  }

  ghost predicate IsTheJob(job: CleanupJob) {
    job.id == 1 && job.sessionId == 1
  }

  lemma SweepOfTheJob(job: CleanupJob, now: int, o: Outcome)
    requires IsTheJob(job) && job.Due(now)
    ensures var st := WithJob(ORPHANED, job);
            st.Valid() && Sweep(st, now, 1, _ => o) == WithJob(ORPHANED, Settled(job.Claimed(now), now, o))
  {
    var st := WithJob(ORPHANED, job);
    SweepEffect(st, now, 1, _ => o);
    TheOnlyJobIsClaimed(st, job, now);
    assert Sweep(st, now, 1, _ => o).jobs == map[1 := Settled(job.Claimed(now), now, o)];
  }

  /** Thread 3 sweeps, alone, while thread 2 waits. */
  lemma Swept(s: System, job: CleanupJob, now: int, o: Outcome) returns (next: System)
    requires StillHeld(s, job) && IsTheJob(job) && job.Due(now)
    ensures StillHeld(next, Settled(job.Claimed(now), now, o)) && IsTheJob(Settled(job.Claimed(now), now, o))
  {
    var steps := [ClaimBatch(3, now, 1)] + PracticeAlone.SweepSteps(3, WithJob(ORPHANED, job).ClaimedRows(now, 1), _ => o);
    SweepOfTheJob(job, now, o);
    PracticeAlone.SweepAlone(s, 3, now, 1, _ => o);
    ReachableRunsOn(s, steps);
    next := Run(s, steps);
    assert next.store == WithJob(ORPHANED, Settled(job.Claimed(now), now, o));
  }

  function Revived(job: CleanupJob): CleanupJob {
    job.(workspaceId := "w", reason := Expired, scheduledAt := SESSION_TTL, status := Pending, lastError := "", updatedAt := 0)
  }

  /** Thread 2 ends the session from its old copy, and enqueues the job again. */
  function Revival(): seq<Step> {
    PracticeAlone.EndSteps(2, OPENED, Expired, Readings(SESSION_TTL, SESSION_TTL, SESSION_TTL), WRITTEN, WRITTEN)
  }

  lemma Revives(s: System, job: CleanupJob)
    requires StillHeld(s, job) && IsTheJob(job)
    ensures IsRun(s, Revival()) && Run(s, Revival()).store.jobs == map[1 := Revived(job)]
  {
    EndOfTheSession(job);
    PracticeAlone.EndAlone(s, 2, OPENED, Expired, Readings(SESSION_TTL, SESSION_TTL, SESSION_TTL), WRITTEN, WRITTEN);
  }

  lemma EndOfTheSession(job: CleanupJob)
    requires IsTheJob(job)
    ensures WithJob(ORPHANED, job).Valid()
    ensures End(WithJob(ORPHANED, job), OPENED, Expired, Readings(SESSION_TTL, SESSION_TTL, SESSION_TTL), WRITTEN, WRITTEN).jobs == map[1 := Revived(job)]
  {
  }

  const DELETED := Outcome(true, "", WRITTEN, WRITTEN)
  const FAILED := Outcome(false, "", WRITTEN, WRITTEN)

  /** A job that has succeeded becomes due again, with no write lost. */
  lemma SucceededJobComesBack()
    ensures exists s, job ::
              && StillHeld(s, job) && job.status == Succeeded
              && IsRun(s, Revival()) && Run(s, Revival()).store.jobs == map[1 := Revived(job)] && Revived(job).Due(SESSION_TTL)
  {
    var s, job := Jobbed(ORPHANED, ORPHAN_JOB.(id := 1), map[2 := Ending(OPENED, Expired)]), ORPHAN_JOB.(id := 1);
    var now := job.scheduledAt;
    TheJobIsEnqueued();
    var swept := Swept(s, job, now, DELETED);
    Revives(swept, Settled(job.Claimed(now), now, DELETED));
  }

  /** A failing sweep whenever the job is due. */
  function Failed(job: CleanupJob): CleanupJob {
    Settled(job.Claimed(job.scheduledAt), job.scheduledAt, FAILED)
  }

  function FailedTimes(job: CleanupJob, n: nat): CleanupJob {
    if n == 0 then job else Failed(FailedTimes(job, n - 1))
  }

  lemma {:induction false} FailingSweeps(s: System, job: CleanupJob, n: nat) returns (end: System)
    requires StillHeld(s, job) && IsTheJob(job) && job.status == Pending && job.attempts == 0 && n <= MAX_ATTEMPTS
    ensures StillHeld(end, FailedTimes(job, n)) && IsTheJob(FailedTimes(job, n))
    ensures FailedTimes(job, n).attempts == n && FailedTimes(job, n).status == (if n == 0 then Pending else JobStatus.Failed)
    decreases n
  {
    if n == 0 {
      end := s;
    } else {
      var before := FailingSweeps(s, job, n - 1);
      var last := FailedTimes(job, n - 1);
      end := Swept(before, last, last.scheduledAt, FAILED);
    }
  }

  /** A job that is listed for operators is stranded, with no write lost. */
  lemma ListedJobIsStranded()
    ensures exists s, job ::
              && StillHeld(s, job) && s.store.IsExhausted(1)
              && IsRun(s, Revival()) && Run(s, Revival()).store.jobs == map[1 := Revived(job)] && PracticeJobs.Stranded(Revived(job))
  {
    var s, job := Jobbed(ORPHANED, ORPHAN_JOB.(id := 1), map[2 := Ending(OPENED, Expired)]), ORPHAN_JOB.(id := 1);
    TheJobIsEnqueued();
    var swept := FailingSweeps(s, job, MAX_ATTEMPTS);
    Revives(swept, FailedTimes(job, MAX_ATTEMPTS));
    assert swept.store.IsExhausted(1);
  }

  // ----- Two sessions are created in the other order than their clocks were read

  const FIRST := NewSession(1, 1, 1, "v", "", 0)
  const SECOND := NewSession(1, 1, 1, "w", "", 1)

  /** The session begun second is stored first. */
  function Crossed(): Store {
    Store(3, 1, map[1 := SECOND.(id := 1), 2 := FIRST.(id := 2)], map[1 := 2], map[], map[])
  }

  const BOTH_BEGUN := System(EMPTY, map[1 := Creating(FIRST), 2 := Creating(SECOND)], {"v", "w"}, {})

  lemma BothBegin()
    ensures Reachable(BOTH_BEGUN)
  {
    var begun := System(EMPTY, map[1 := Creating(FIRST)], {"v"}, {});
    StartIsReachable();
    Begins(START, 1, "v", 0);
    assert {} + {"v"} == {"v"};
    Begins(begun, 2, "w", 1);
    assert {"v"} + {"w"} == {"v", "w"};
  }

  lemma BothFinish()
    ensures Reachable(System(Crossed(), map[], {"v", "w"}, {}))
  {
    var half := System(Store(2, 1, map[1 := SECOND.(id := 1)], map[1 := 1], map[], map[]), map[1 := Creating(FIRST)], {"v", "w"}, {});
    BothBegin();
    Finishes(BOTH_BEGUN, 2, SECOND);
    assert EMPTY.CreateSession(SECOND) == half.store && BOTH_BEGUN.threads - {2} == half.threads;
    OtherFinishes(half);
  }

  lemma OtherFinishes(half: System)
    requires half == System(Store(2, 1, map[1 := SECOND.(id := 1)], map[1 := 1], map[], map[]), map[1 := Creating(FIRST)], {"v", "w"}, {})
    requires Reachable(half)
    ensures Reachable(System(Crossed(), map[], {"v", "w"}, {}))
  {
    Finishes(half, 1, FIRST);
    assert half.store.CreateSession(FIRST) == Crossed() && half.threads - {1} == map[];
  }

  /** The index then names session 2, though session 1 started later. */
  lemma CreationsCanCross()
    ensures Reachable(System(Crossed(), map[], {"v", "w"}, {}))
    ensures Crossed().CurrentSession(1) == Ok(FIRST.(id := 2))
    ensures PracticeRuns.IsNewest(Crossed().sessions, 1, 1) && !PracticeRuns.FindsNewest(Crossed(), 1)
  {
    BothFinish();
    assert !PracticeRuns.NoNewer(Crossed().sessions[1], Crossed().sessions[2]);
  }
}
