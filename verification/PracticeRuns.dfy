/**
 Whole runs of the practice service: any number of calls, in any order, with any store writes
 lost and any deletes failing. Each call is atomic and the clock does not go back.
 */
module PracticeRuns {
  import opened Common
  import opened Ordering
  import opened PracticeStore
  import opened PracticeCalls

  datatype State = State(store: Store, clock: int)

  datatype Call =
    | CreateSession(userId: nat, scenarioId: nat, templateId: nat, runnerRef: string, path: string, now: int, write: Write)
    | VisitSession(id: nat, t: Readings, update: Write, job: Write)
    | VisitWithoutWorkspace(id: nat, t: Readings, update: Write, job: Write)
    | ExpireSessions(now: int, order: seq<nat>, writes: nat -> Write)
    | SweepJobs(now: int, limit: int, outcomes: nat -> Outcome)
    | ReconcileJobs(now: int, limit: int, writes: nat -> Write)
    | RequeueJob(id: nat, now: int, write: Write)

  /** When the call has read the clock for the last time. */
  function EndOf(call: Call): int {
    match call
    case VisitSession(_, t, _, _) => t.third
    case VisitWithoutWorkspace(_, t, _, _) => t.third
    case _ => call.now
  }

  predicate FreshRef(st: Store, runnerRef: string) {
    forall id | id in st.sessions :: st.sessions[id].runnerRef != runnerRef
  }

  /** The clock does not go back, the runner gives new workspaces new identifiers, and expiry enqueues what it expired. */
  ghost predicate Enabled(s: State, call: Call) {
    match call
    case VisitSession(_, t, _, _) => t.InOrder(s.clock)
    case VisitWithoutWorkspace(_, t, _, _) => t.InOrder(s.clock)
    case CreateSession(_, _, _, runnerRef, _, now, _) => s.clock <= now && FreshRef(s.store, runnerRef)
    case ExpireSessions(now, order, _) => s.clock <= now && s.store.ListsStale(order, now)
    case _ => s.clock <= call.now
  }

  ghost function StoreAfter(st: Store, call: Call): Store
    requires st.Valid()
  {
    match call
    case CreateSession(userId, scenarioId, templateId, runnerRef, path, now, write) =>
      Create(st, NewSession(userId, scenarioId, templateId, runnerRef, path, now), write)
    case VisitSession(id, t, update, job) => Visit(st, id, t, update, job)
    case VisitWithoutWorkspace(id, t, update, job) => VisitMissing(st, id, t, update, job)
    case ExpireSessions(now, order, writes) => ExpireStale(st, now, order, writes)
    case SweepJobs(now, limit, outcomes) => Sweep(st, now, limit, outcomes)
    case ReconcileJobs(now, limit, writes) => Reconcile(st, now, limit, writes)
    case RequeueJob(id, now, write) => RequeueExhausted(st, id, now, write)
  }

  ghost function Apply(s: State, call: Call): State
    requires s.store.Valid()
  {
    State(StoreAfter(s.store, call), EndOf(call))
  }

  // ----- The invariant

  ghost predicate SessionOk(session: PracticeSession, clock: int) {
    && session.startedAt <= clock
    && (session.status == Active <==> session.endedAt.None?)
    && (session.endedAt.Some? ==> session.endedAt.value <= clock)
    && session.expiresAt == session.startedAt + SESSION_TTL
    && (session.status == Expired && session.endedAt.Some? ==> session.endedAt.value >= session.expiresAt)
  }

  ghost predicate RefsDiffer(sessions: map<nat, PracticeSession>) {
    forall a, b | a in sessions && b in sessions && a != b :: sessions[a].runnerRef != sessions[b].runnerRef
  }

  /** `a` does not come before `b` in ORDER BY started_at DESC, id DESC. */
  predicate NoNewer(a: PracticeSession, b: PracticeSession) {
    a.startedAt < b.startedAt || (a.startedAt == b.startedAt && a.id <= b.id)
  }

  ghost predicate IsNewest(sessions: map<nat, PracticeSession>, userId: nat, newest: nat) {
    && newest in sessions && sessions[newest].userId == userId
    && forall id | id in sessions && sessions[id].userId == userId :: NoNewer(sessions[id], sessions[newest])
  }

  ghost predicate IndexOk(sessions: map<nat, PracticeSession>, current: map<nat, nat>) {
    && (forall userId | userId in current :: IsNewest(sessions, userId, current[userId]))
    && (forall id | id in sessions :: sessions[id].userId in current)
  }

  /** The index finds what ORDER BY started_at DESC, id DESC LIMIT 1 finds, and nothing only when there is nothing. */
  ghost predicate FindsNewest(st: Store, userId: nat) {
    match st.CurrentSession(userId)
    case Ok(session) => IsNewest(st.sessions, userId, session.id) && st.sessions[session.id] == session
    case Err(_) => forall id | id in st.sessions :: st.sessions[id].userId != userId
  }

  /** `time` is not within the grace period of an orphaned session; an expired one has none. */
  predicate Graced(session: PracticeSession, time: int) {
    session.status == Orphaned && session.endedAt.Some? ==> session.endedAt.value + ORPHAN_CLEANUP_GRACE <= time
  }

  /** The job is for an ended session and names that session's workspace. */
  predicate JobMatches(sessions: map<nat, PracticeSession>, job: CleanupJob) {
    && job.sessionId in sessions
    && sessions[job.sessionId].status != Active
    && job.workspaceId == sessions[job.sessionId].runnerRef && job.reason == sessions[job.sessionId].status
    && Graced(sessions[job.sessionId], job.scheduledAt)
  }

  predicate JobOk(sessions: map<nat, PracticeSession>, clock: int, job: CleanupJob) {
    && JobMatches(sessions, job)
    && job.attempts <= MAX_ATTEMPTS
    && (job.status == Running ==> job.attempts > 0 && job.scheduledAt <= job.updatedAt <= clock)
    && (job.attempts > 0 ==> Graced(sessions[job.sessionId], clock))
  }

  ghost predicate SessionsOk(sessions: map<nat, PracticeSession>, current: map<nat, nat>, clock: int) {
    && (forall id | id in sessions :: SessionOk(sessions[id], clock))
    && RefsDiffer(sessions)
    && IndexOk(sessions, current)
  }

  predicate JobsOk(sessions: map<nat, PracticeSession>, jobs: map<nat, CleanupJob>, clock: int) {
    forall id | id in jobs :: JobOk(sessions, clock, jobs[id])
  }

  ghost predicate Inv(st: Store, clock: int) {
    && st.Valid()
    && SessionsOk(st.sessions, st.current, clock)
    && JobsOk(st.sessions, st.jobs, clock)
  }

  // ----- What each store operation keeps

  lemma ClockMovesOn(st: Store, clock: int, later: int)
    requires Inv(st, clock) && clock <= later
    ensures Inv(st, later)
  {
  }

  lemma NewSessionKeepsIndex(st: Store, clock: int, session: PracticeSession)
    requires Inv(st, clock)
    requires session.startedAt == clock
    ensures var after := st.CreateSession(session); IndexOk(after.sessions, after.current)
  {
    var after := st.CreateSession(session);
    forall userId | userId in after.current
      ensures IsNewest(after.sessions, userId, after.current[userId])
    {
      if userId != session.userId {
        assert IsNewest(st.sessions, userId, st.current[userId]);
      }
      forall id | id in st.sessions
        ensures SessionOk(st.sessions[id], clock)
      {
      }
    }
  }

  lemma NewSessionKeepsSessions(st: Store, clock: int, session: PracticeSession)
    requires Inv(st, clock)
    requires session.status == Active && session.startedAt == clock && session.endedAt.None?
    requires session.expiresAt == session.startedAt + SESSION_TTL
    requires FreshRef(st, session.runnerRef)
    ensures var after := st.CreateSession(session); SessionsOk(after.sessions, after.current, clock)
  {
    NewSessionKeepsIndex(st, clock, session);
  }

  lemma CreateKeepsInv(st: Store, clock: int, session: PracticeSession)
    requires Inv(st, clock)
    requires session.status == Active && session.startedAt == clock && session.endedAt.None?
    requires session.expiresAt == session.startedAt + SESSION_TTL
    requires FreshRef(st, session.runnerRef)
    ensures Inv(st.CreateSession(session), clock)
  {
    st.CreateKeepsValid(session);
    NewSessionKeepsSessions(st, clock, session);
    JobsKeepTheirSessions(st.sessions, st.sessions[st.nextId := session.(id := st.nextId)], st.jobs, clock);
  }

  /** Sessions that have jobs are unchanged. */
  lemma JobsKeepTheirSessions(sessions: map<nat, PracticeSession>, after: map<nat, PracticeSession>, jobs: map<nat, CleanupJob>, clock: int)
    requires JobsOk(sessions, jobs, clock)
    requires forall id | id in jobs && jobs[id].sessionId in sessions ::
               jobs[id].sessionId in after && after[jobs[id].sessionId] == sessions[jobs[id].sessionId]
    ensures JobsOk(after, jobs, clock)
  {
    forall id | id in jobs
      ensures JobOk(after, clock, jobs[id])
    {
      assert JobOk(sessions, clock, jobs[id]);
    }
  }

  /** An active session has no job. */
  lemma ActiveSessionsHaveNoJob(st: Store, clock: int, id: nat)
    requires Inv(st, clock)
    requires id in st.sessions && st.sessions[id].status == Active
    ensures id !in st.jobOf
  {
    assert id in st.jobOf ==> JobOk(st.sessions, clock, st.jobs[st.jobOf[id]]);
  }

  /** Ending a session does not touch the index: it already names the user's newest session. */
  lemma EndIsLocal(st: Store, clock: int, id: nat, status: SessionStatus, now: int)
    requires Inv(st, clock)
    requires id in st.sessions && status != Active
    ensures st.UpdateSession(Ended(st.sessions[id], status, now)) ==
            st.(sessions := st.sessions[id := Ended(st.sessions[id], status, now)])
  {
    var userId := st.sessions[id].userId;
    assert userId in st.current;
    assert st.current[userId := st.current[userId]] == st.current;
  }

  /** Everything about a session that no call rewrites. */
  predicate SameIdentity(a: PracticeSession, b: PracticeSession) {
    a.id == b.id && a.userId == b.userId && a.startedAt == b.startedAt && a.runnerRef == b.runnerRef
  }

  predicate SameIdentities(before: map<nat, PracticeSession>, after: map<nat, PracticeSession>) {
    after.Keys == before.Keys && forall id | id in after :: SameIdentity(before[id], after[id])
  }

  /** Expiry and orphaning rewrite sessions, but the index still names the newest of each user. */
  lemma RewritingKeepsIndex(before: map<nat, PracticeSession>, after: map<nat, PracticeSession>, current: map<nat, nat>)
    requires IndexOk(before, current) && SameIdentities(before, after)
    ensures IndexOk(after, current)
  {
    forall userId | userId in current
      ensures IsNewest(after, userId, current[userId])
    {
      assert IsNewest(before, userId, current[userId]);
    }
  }

  lemma RewritingKeepsRefs(before: map<nat, PracticeSession>, after: map<nat, PracticeSession>)
    requires RefsDiffer(before) && SameIdentities(before, after)
    ensures RefsDiffer(after)
  {
  }

  lemma EndKeepsInv(st: Store, clock: int, id: nat, status: SessionStatus)
    requires Inv(st, clock)
    requires id in st.sessions && st.sessions[id].status == Active && status != Active
    requires status == Expired ==> st.sessions[id].expiresAt <= clock
    ensures Inv(st.UpdateSession(Ended(st.sessions[id], status, clock)), clock)
  {
    var ended := Ended(st.sessions[id], status, clock);
    var sessions := st.sessions[id := ended];
    st.UpdateKeepsValid(ended);
    EndIsLocal(st, clock, id, status, clock);
    EndKeepsSessions(st.sessions, st.current, id, ended, sessions, clock);
    EndKeepsJobs(st, clock, id, sessions);
  }

  lemma EndKeepsSessions(before: map<nat, PracticeSession>, current: map<nat, nat>, id: nat, ended: PracticeSession,
                         sessions: map<nat, PracticeSession>, clock: int)
    requires SessionsOk(before, current, clock)
    requires id in before && before[id].status == Active && ended == Ended(before[id], ended.status, clock) && ended.status != Active
    requires sessions == before[id := ended]
    requires ended.status == Expired ==> ended.expiresAt <= clock
    ensures SessionsOk(sessions, current, clock)
  {
    RewritingKeepsIndex(before, sessions, current);
    RewritingKeepsRefs(before, sessions);
    assert SessionOk(before[id], clock);
  }

  lemma EndKeepsJobs(st: Store, clock: int, id: nat, sessions: map<nat, PracticeSession>)
    requires Inv(st, clock)
    requires id in st.sessions && st.sessions[id].status == Active && id in sessions
    requires sessions == st.sessions[id := sessions[id]]
    ensures JobsOk(sessions, st.jobs, clock)
  {
    ActiveSessionsHaveNoJob(st, clock, id);
    JobsKeepTheirSessions(st.sessions, sessions, st.jobs, clock);
  }

  lemma UpsertKeepsInv(st: Store, clock: int, job: CleanupJob, wall: int)
    requires Inv(st, clock)
    requires JobMatches(st.sessions, job) && job.status == Pending && job.attempts == 0
    ensures Inv(st.Upsert(job, wall), clock)
    ensures st.Upsert(job, wall).sessions == st.sessions
  {
    st.UpsertWritesOneRow(job, wall);
    UpsertKeepsJobs(st, clock, job, wall);
  }

  lemma UpsertKeepsJobs(st: Store, clock: int, job: CleanupJob, wall: int)
    requires st.Valid() && JobsOk(st.sessions, st.jobs, clock)
    requires JobMatches(st.sessions, job) && job.status == Pending && job.attempts == 0
    ensures JobsOk(st.sessions, st.Upsert(job, wall).jobs, clock)
  {
    var after := st.Upsert(job, wall);
    st.UpsertWritesOneRow(job, wall);
    forall id | id in after.jobs
      ensures JobOk(st.sessions, clock, after.jobs[id])
    {
      assert id in st.jobs ==> JobOk(st.sessions, clock, st.jobs[id]);
    }
  }

  /** A due job of an orphaned session is past the session's grace period. */
  lemma DueJobsAreGraced(sessions: map<nat, PracticeSession>, clock: int, job: CleanupJob, now: int)
    requires JobOk(sessions, clock, job) && clock <= now
    requires job.Due(now)
    ensures Graced(sessions[job.sessionId], now)
  {
  }

  lemma SettledJobIsOk(sessions: map<nat, PracticeSession>, clock: int, job: CleanupJob, now: int, o: Outcome)
    requires JobOk(sessions, clock, job) && clock <= now && job.Due(now)
    ensures JobOk(sessions, now, Settled(job.Claimed(now), now, o))
    ensures Settled(job.Claimed(now), now, o).id == job.id && Settled(job.Claimed(now), now, o).sessionId == job.sessionId
  {
    DueJobsAreGraced(sessions, clock, job, now);
  }

  lemma SweepKeepsInv(st: Store, clock: int, now: int, limit: int, outcomes: nat -> Outcome)
    requires Inv(st, clock) && clock <= now
    ensures Inv(Sweep(st, now, limit, outcomes), now)
  {
    var after := Sweep(st, now, limit, outcomes);
    SweepEffect(st, now, limit, outcomes);
    forall id | id in st.jobs
      ensures JobOk(st.sessions, now, after.jobs[id])
    {
      assert JobOk(st.sessions, clock, st.jobs[id]);
      if st.Claims(id, now, EffectiveLimit(limit)) {
        ClaimTakesTheFirstDue(st, now, EffectiveLimit(limit), id);
        SettledJobIsOk(st.sessions, clock, st.jobs[id], now, outcomes(id));
      }
    }
  }

  lemma OneJobChanges(sessions: map<nat, PracticeSession>, jobs: map<nat, CleanupJob>, id: nat, job: CleanupJob, clock: int)
    requires JobsOk(sessions, jobs, clock) && JobOk(sessions, clock, job)
    ensures JobsOk(sessions, jobs[id := job], clock)
  {
  }

  lemma RequeueKeepsInv(st: Store, clock: int, id: nat, now: int, write: Write)
    requires Inv(st, clock) && clock <= now
    ensures Inv(RequeueExhausted(st, id, now, write), now)
  {
    ClockMovesOn(st, clock, now);
    if st.IsExhausted(id) && !write.lost {
      var requeued := st.Requeue(id, now, write.wall).jobs[id];
      st.JobWriteKeepsValid(id, requeued);
      assert JobOk(st.sessions, clock, st.jobs[id]);
      OneJobChanges(st.sessions, st.jobs, id, requeued, now);
    }
  }

  // ----- What each call keeps

  lemma EnqueueKeepsInv(st: Store, clock: int, session: PracticeSession, at: int, write: Write)
    requires Inv(st, clock)
    requires session.id in st.sessions && st.sessions[session.id] == session && session.status != Active
    requires Graced(session, at)
    ensures Inv(Enqueue(st, session, session.status, at, write), clock)
    ensures Enqueue(st, session, session.status, at, write).sessions == st.sessions
  {
    if !write.lost {
      UpsertKeepsInv(st, clock, NewJob(session.id, session.runnerRef, session.status, at), write.wall);
    }
  }

  lemma TransitionKeepsInv(st: Store, clock: int, id: nat, status: SessionStatus, now: int)
    requires Inv(st, clock) && clock <= now
    requires id in st.sessions && st.sessions[id].status == Active && status != Active
    requires status == Expired ==> st.sessions[id].expiresAt <= now
    ensures var ended, after := Ended(st.sessions[id], status, now), st.UpdateSession(Ended(st.sessions[id], status, now));
            && Inv(after, now)
            && id in after.sessions && after.sessions[id] == ended && ended.endedAt == Some(now)
  {
    assert SessionOk(st.sessions[id], clock);
    ClockMovesOn(st, clock, now);
    EndKeepsInv(st, now, id, status);
  }

  lemma EndedIsEnqueued(st: Store, clock: int, id: nat, status: SessionStatus, t: Readings, job: Write)
    requires Inv(st, t.second) && t.InOrder(clock)
    requires id in st.sessions && st.sessions[id].status == status != Active
    requires st.sessions[id].endedAt == Some(t.second)
    ensures var at := JobDueAt(status, t.third);
            Inv(Enqueue(st, st.sessions[id], status, at, job), t.third)
  {
    ClockMovesOn(st, t.second, t.third);
    EnqueueKeepsInv(st, t.third, st.sessions[id], JobDueAt(status, t.third), job);
  }

  lemma EndCallKeepsInv(st: Store, clock: int, id: nat, status: SessionStatus, t: Readings, update: Write, job: Write)
    requires Inv(st, clock) && t.InOrder(clock)
    requires id in st.sessions && st.sessions[id].status == Active && status != Active
    requires status == Expired ==> st.sessions[id].expiresAt <= t.first
    ensures Inv(End(st, st.sessions[id], status, t, update, job), t.third)
  {
    if update.lost {
      ClockMovesOn(st, clock, t.third);
    } else {
      var after := st.UpdateSession(Ended(st.sessions[id], status, t.second));
      EndUnfolds(st, id, status, t, update, job);
      TransitionKeepsInv(st, clock, id, status, t.second);
      EndedIsEnqueued(after, clock, id, status, t, job);
    }
  }

  lemma EndUnfolds(st: Store, id: nat, status: SessionStatus, t: Readings, update: Write, job: Write)
    requires id in st.sessions && st.sessions[id].id == id && !update.lost
    ensures var after := st.UpdateSession(Ended(st.sessions[id], status, t.second));
            var at := JobDueAt(status, t.third);
            && id in after.sessions
            && End(st, st.sessions[id], status, t, update, job) == Enqueue(after, after.sessions[id], status, at, job)
  {
  }

  lemma VisitKeepsInv(s: State, id: nat, t: Readings, update: Write, job: Write)
    requires Inv(s.store, s.clock) && t.InOrder(s.clock)
    ensures Inv(Visit(s.store, id, t, update, job), t.third)
    ensures Inv(VisitMissing(s.store, id, t, update, job), t.third)
  {
    ClockMovesOn(s.store, s.clock, t.third);
    if id in s.store.sessions && s.store.sessions[id].status == Active {
      EndCallKeepsInv(s.store, s.clock, id, if s.store.Stale(id, t.first) then Expired else Orphaned, t, update, job);
    }
  }

  lemma ExpireKeepsSessions(st: Store, now: int)
    requires Inv(st, now)
    ensures SessionsOk(st.Expire(now, now).sessions, st.current, now)
  {
    var after := st.Expire(now, now).sessions;
    RewritingKeepsIndex(st.sessions, after, st.current);
    RewritingKeepsRefs(st.sessions, after);
    forall id | id in after
      ensures SessionOk(after[id], now)
    {
      assert SessionOk(st.sessions[id], now);
    }
  }

  lemma ExpireKeepsInv(st: Store, now: int)
    requires Inv(st, now)
    ensures Inv(st.Expire(now, now), now)
  {
    var after := st.Expire(now, now);
    ExpireKeepsSessions(st, now);
    forall id | id in st.jobs
      ensures JobOk(after.sessions, now, st.jobs[id])
    {
      assert JobOk(st.sessions, now, st.jobs[id]);
    }
  }

  lemma {:induction false} EnqueueAllKeepsInv(st: Store, now: int, order: seq<nat>, writes: nat -> Write)
    requires Inv(st, now)
    requires forall id | id in order :: id in st.sessions && st.sessions[id].status == Expired
    ensures Inv(EnqueueAll(st, order, now, writes), now)
    ensures EnqueueAll(st, order, now, writes).sessions == st.sessions
    decreases |order|
  {
    if order != [] {
      var session := st.sessions[order[0]];
      var next := Enqueue(st, session, Expired, now, writes(order[0]));
      EnqueueKeepsInv(st, now, session, now, writes(order[0]));
      EnqueueAllKeepsInv(next, now, order[1..], writes);
    }
  }

  lemma ExpireCallKeepsInv(st: Store, clock: int, now: int, order: seq<nat>, writes: nat -> Write)
    requires Inv(st, clock) && clock <= now && st.ListsStale(order, now)
    ensures Inv(ExpireStale(st, now, order, writes), now)
  {
    ClockMovesOn(st, clock, now);
    ExpireKeepsInv(st, now);
    EnqueueAllKeepsInv(st.Expire(now, now), now, order, writes);
  }

  lemma {:induction false} BackfillAllKeepsInv(st: Store, now: int, keys: seq<Key>, writes: nat -> Write)
    requires Inv(st, now)
    requires forall k | k in keys :: k.id in st.sessions && st.sessions[k.id].status != Active
    ensures Inv(BackfillAll(st, keys, now, writes), now)
    ensures BackfillAll(st, keys, now, writes).sessions == st.sessions
    decreases |keys|
  {
    if keys != [] && !writes(keys[0].id).lost {
      assert keys[0] in keys;
      var session := st.sessions[keys[0].id];
      var job := NewJob(session.id, session.runnerRef, session.status, BackfillAt(session, now));
      UpsertKeepsInv(st, now, job, writes(keys[0].id).wall);
      BackfillAllKeepsInv(st.Upsert(job, writes(keys[0].id).wall), now, keys[1..], writes);
    }
  }

  lemma ReconcileKeepsInv(st: Store, clock: int, now: int, limit: int, writes: nat -> Write)
    requires Inv(st, clock) && clock <= now
    ensures Inv(Reconcile(st, now, limit, writes), now)
  {
    ClockMovesOn(st, clock, now);
    FirstOfIsFirst(IdKeys(st.MissingIds()), LimitOf(EffectiveLimit(limit)));
    BackfillAllKeepsInv(st, now, FirstIds(st.MissingIds(), EffectiveLimit(limit)), writes);
  }

  lemma CallKeepsInv(s: State, call: Call)
    requires Inv(s.store, s.clock) && Enabled(s, call)
    ensures Inv(Apply(s, call).store, Apply(s, call).clock)
  {
    match call
    case CreateSession(userId, scenarioId, templateId, runnerRef, path, now, write) =>
      ClockMovesOn(s.store, s.clock, now);
      CreateKeepsInv(s.store, now, NewSession(userId, scenarioId, templateId, runnerRef, path, now));
    case VisitSession(id, t, update, job) => VisitKeepsInv(s, id, t, update, job);
    case VisitWithoutWorkspace(id, t, update, job) => VisitKeepsInv(s, id, t, update, job);
    case ExpireSessions(now, order, writes) => ExpireCallKeepsInv(s.store, s.clock, now, order, writes);
    case SweepJobs(now, limit, outcomes) => SweepKeepsInv(s.store, s.clock, now, limit, outcomes);
    case ReconcileJobs(now, limit, writes) => ReconcileKeepsInv(s.store, s.clock, now, limit, writes);
    case RequeueJob(id, now, write) => RequeueKeepsInv(s.store, s.clock, id, now, write);
  }

  // ----- Runs

  ghost predicate IsRun(s: State, calls: seq<Call>)
    decreases |calls|
  {
    calls == [] || (s.store.Valid() && Enabled(s, calls[0]) && IsRun(Apply(s, calls[0]), calls[1..]))
  }

  ghost function Run(s: State, calls: seq<Call>): State
    requires IsRun(s, calls)
    decreases |calls|
  {
    if calls == [] then s else Run(Apply(s, calls[0]), calls[1..])
  }

  lemma {:induction false} RunKeepsInv(s: State, calls: seq<Call>)
    requires Inv(s.store, s.clock) && IsRun(s, calls)
    ensures Inv(Run(s, calls).store, Run(s, calls).clock)
    decreases |calls|
  {
    if calls != [] {
      CallKeepsInv(s, calls[0]);
      RunKeepsInv(Apply(s, calls[0]), calls[1..]);
    }
  }

  /** Where every run begins: nothing stored, the clock anywhere. */
  function Start(clock: int): State {
    State(EMPTY, clock)
  }

  lemma ReachableIsOk(clock: int, calls: seq<Call>)
    requires IsRun(Start(clock), calls)
    ensures Inv(Run(Start(clock), calls).store, Run(Start(clock), calls).clock)
  {
    RunKeepsInv(Start(clock), calls);
  }
}
