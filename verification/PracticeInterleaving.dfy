/**
 The practice service with its calls interleaved: any number of threads, each in the middle of
 some call and holding copies of rows that may be out of date. One step is one call of the store
 or of the runner (services/api/internal/service/practice_service.go).
 */
module PracticeInterleaving {
  import opened Ordering
  import opened PracticeStore
  import opened PracticeCalls
  import opened PracticeRuns

  /** Where a thread is, and what it holds. */
  datatype Local =
    | Creating(session: PracticeSession)
    | Checking(session: PracticeSession)
    | Using(session: PracticeSession)
    | Ending(session: PracticeSession, status: SessionStatus)
    | Enqueueing(jobs: seq<CleanupJob>, fallback: bool)
    | FallingBack(job: CleanupJob, rest: seq<CleanupJob>)
    | Sweeping(rows: seq<CleanupJob>, now: int)
    | Marking(rows: seq<CleanupJob>, now: int, deleted: bool)
    | Recovering(rows: seq<CleanupJob>, now: int, at: int)
    | Requeueing(id: nat)
    | Done

  /** `issued` are the workspaces the runner ever made, `deletes` those it was ever asked to delete. */
  datatype System = System(store: Store, threads: map<nat, Local>, issued: set<string>, deletes: set<string>)

  datatype Step =
    | BeginCreate(t: nat, userId: nat, scenarioId: nat, templateId: nat, runnerRef: string, path: string, now: int)
    | FinishCreate(t: nat, write: Write)
    | Read(t: nat, id: nat)
    | Check(t: nat, now: int)
    | MissWorkspace(t: nat)
    | Leave(t: nat)
    | EndSession(t: nat, now: int, later: int, write: Write)
    | ExpireBatch(t: nat, now: int, order: seq<nat>)
    | ListMissing(t: nat, now: int, limit: int)
    | EnqueueNext(t: nat, write: Write)
    | FallBack(t: nat)
    | ClaimBatch(t: nat, now: int, limit: int)
    | DeleteNext(t: nat, deleted: bool)
    | Mark(t: nat, error: string, write: Write)
    | RecoverNext(t: nat, write: Write)
    | ReadExhausted(t: nat, id: nat)
    | RequeueRead(t: nat, now: int, write: Write)

  /** A thread with nothing left to do is gone. */
  function Put(threads: map<nat, Local>, t: nat, local: Local): map<nat, Local> {
    if local.Done? || (local.Enqueueing? && local.jobs == []) || (local.Sweeping? && local.rows == [])
    then threads - {t} else threads[t := local]
  }

  /** A step is taken by a new thread, or by one that is where the step starts. */
  ghost predicate Enabled(s: System, step: Step) {
    match step
    case BeginCreate(t, _, _, _, runnerRef, _, _) => t !in s.threads && runnerRef !in s.issued
    case Read(t, id) => t !in s.threads && id in s.store.sessions
    case ExpireBatch(t, now, order) => t !in s.threads && s.store.ListsStale(order, now)
    case ListMissing(t, _, _) => t !in s.threads
    case ClaimBatch(t, _, _) => t !in s.threads
    case ReadExhausted(t, id) => t !in s.threads && s.store.IsExhausted(id)
    case FinishCreate(t, _) => t in s.threads && s.threads[t].Creating?
    case Check(t, _) => t in s.threads && s.threads[t].Checking?
    case MissWorkspace(t) => t in s.threads && s.threads[t].Using?
    case Leave(t) => t in s.threads && s.threads[t].Using?
    case EndSession(t, _, _, _) => t in s.threads && s.threads[t].Ending?
    case EnqueueNext(t, _) => t in s.threads && s.threads[t].Enqueueing? && s.threads[t].jobs != []
    case FallBack(t) => t in s.threads && s.threads[t].FallingBack?
    case DeleteNext(t, _) => t in s.threads && s.threads[t].Sweeping? && s.threads[t].rows != []
    case Mark(t, _, _) => t in s.threads && s.threads[t].Marking? && s.threads[t].rows != []
    case RecoverNext(t, _) => t in s.threads && s.threads[t].Recovering? && s.threads[t].rows != []
    case RequeueRead(t, _, _) => t in s.threads && s.threads[t].Requeueing?
  }

  /** The workspace that the step asks the runner to delete. */
  function DeleteBy(s: System, step: Step): set<string> {
    if step.DeleteNext? && step.t in s.threads && s.threads[step.t].Sweeping? && s.threads[step.t].rows != [] then
      {s.threads[step.t].rows[0].workspaceId}
    else if step.FallBack? && step.t in s.threads && s.threads[step.t].FallingBack? then
      (if s.threads[step.t].job.workspaceId == "" then {} else {s.threads[step.t].job.workspaceId})
    else {}
  }

  ghost function BackfillJob(st: Store, key: Key, now: int): CleanupJob {
    if key.id in st.sessions then
      var session := st.sessions[key.id];
      NewJob(session.id, session.runnerRef, session.status, BackfillAt(session, now))
    else NewJob(0, "", Expired, now)
  }

  ghost function BackfillJobs(st: Store, now: int, limit: int): seq<CleanupJob> {
    var keys := FirstIds(st.MissingIds(), EffectiveLimit(limit));
    seq(|keys|, i requires 0 <= i < |keys| => BackfillJob(st, keys[i], now))
  }

  /** The jobs of the sessions that expire at `now`, from the copies that the store returns. */
  function ExpiryJobs(st: Store, order: seq<nat>, now: int): seq<CleanupJob> {
    seq(|order|, i requires 0 <= i < |order| =>
      NewJob(order[i], if order[i] in st.sessions then st.sessions[order[i]].runnerRef else "", Expired, now))
  }

  ghost function StoreAfter(s: System, step: Step): Store
    requires s.store.Valid() && Enabled(s, step)
  {
    var st := s.store;
    match step
    case FinishCreate(t, write) => Create(st, s.threads[t].session, write)
    case EndSession(t, now, _, write) =>
      var local := s.threads[t];
      if write.lost || local.session.id !in st.sessions then st
      else st.UpdateSession(Ended(local.session, local.status, now))
    case ExpireBatch(_, now, _) => st.Expire(now, now)
    case EnqueueNext(t, write) => if write.lost then st else st.Upsert(s.threads[t].jobs[0], write.wall)
    case ClaimBatch(_, now, limit) => st.Claim(now, EffectiveLimit(limit))
    case Mark(t, error, write) =>
      var row := s.threads[t].rows[0];
      if write.lost || row.id !in st.jobs then st
      else if s.threads[t].deleted then st.MarkSucceeded(row.id, write.wall)
      else st.MarkFailed(row.id, FailedUntil(row, s.threads[t].now), error, write.wall)
    case RecoverNext(t, write) => Recover(st, s.threads[t].rows[0], s.threads[t].at, write)
    case RequeueRead(t, now, write) =>
      var id := s.threads[t].id;
      if write.lost || id !in st.jobs then st else st.Requeue(id, now, write.wall)
    case _ => st
  }

  ghost function LocalAfter(s: System, step: Step): Local
    requires s.store.Valid() && Enabled(s, step)
  {
    var st := s.store;
    match step
    case BeginCreate(_, userId, scenarioId, templateId, runnerRef, path, now) =>
      Creating(NewSession(userId, scenarioId, templateId, runnerRef, path, now))
    case Read(_, id) => Checking(st.sessions[id])
    case Check(t, now) =>
      var session := s.threads[t].session;
      if session.status != Active then Done
      else if session.expiresAt <= now then Ending(session, Expired)
      else Using(session)
    case MissWorkspace(t) => Ending(s.threads[t].session, Orphaned)
    case EndSession(t, now, later, write) =>
      var session, status := s.threads[t].session, s.threads[t].status;
      if write.lost || session.id !in st.sessions then Done
      else
        var at := JobDueAt(status, later);
        Enqueueing([NewJob(session.id, session.runnerRef, status, at)], true)
    case ExpireBatch(_, now, order) => Enqueueing(ExpiryJobs(st, order, now), true)
    case ListMissing(_, now, limit) => Enqueueing(BackfillJobs(st, now, limit), false)
    case EnqueueNext(t, write) =>
      var jobs, fallback := s.threads[t].jobs, s.threads[t].fallback;
      if !write.lost then Enqueueing(jobs[1..], fallback)
      else if fallback then FallingBack(jobs[0], jobs[1..])
      else Done
    case FallBack(t) => Enqueueing(s.threads[t].rest, true)
    case ClaimBatch(_, now, limit) => Sweeping(st.ClaimedRows(now, EffectiveLimit(limit)), now)
    case DeleteNext(t, deleted) => Marking(s.threads[t].rows, s.threads[t].now, deleted)
    case Mark(t, _, write) =>
      var rows, now := s.threads[t].rows, s.threads[t].now;
      if !write.lost && rows[0].id in st.jobs then Sweeping(rows[1..], now)
      else Recovering(rows, now, if s.threads[t].deleted then now else FailedUntil(rows[0], now))
    case RecoverNext(t, _) => Sweeping(s.threads[t].rows[1..], s.threads[t].now)
    case ReadExhausted(_, id) => Requeueing(id)
    case Leave(_) => Done
    case FinishCreate(_, _) => Done
    case RequeueRead(_, _, _) => Done
  }

  ghost function Apply(s: System, step: Step): System
    requires s.store.Valid() && Enabled(s, step)
  {
    System(StoreAfter(s, step), Put(s.threads, step.t, LocalAfter(s, step)),
           s.issued + (if step.BeginCreate? then {step.runnerRef} else {}), s.deletes + DeleteBy(s, step))
  }

  // ----- What never changes back

  /** Sessions keep their identity, and those that have ended stay ended. */
  predicate Forward(before: map<nat, PracticeSession>, after: map<nat, PracticeSession>) {
    && before.Keys <= after.Keys
    && forall id | id in before ::
         SameIdentity(before[id], after[id]) && (before[id].status != Active ==> after[id].status != Active)
  }

  /** Jobs stay with their session, and their workspace. */
  predicate JobsForward(before: map<nat, CleanupJob>, after: map<nat, CleanupJob>) {
    && before.Keys <= after.Keys
    && forall id | id in before :: after[id].sessionId == before[id].sessionId
  }

  // ----- The invariant

  /** The workspace belongs to a session that has ended. */
  predicate Dead(sessions: map<nat, PracticeSession>, sessionId: nat, workspaceId: string) {
    && sessionId in sessions
    && sessions[sessionId].status != Active && sessions[sessionId].runnerRef == workspaceId
  }

  predicate CopyOf(sessions: map<nat, PracticeSession>, copy: PracticeSession) {
    copy.id in sessions && SameIdentity(copy, sessions[copy.id])
  }

  predicate RowOk(sessions: map<nat, PracticeSession>, jobs: map<nat, CleanupJob>, row: CleanupJob) {
    Dead(sessions, row.sessionId, row.workspaceId) && row.id in jobs && jobs[row.id].sessionId == row.sessionId
  }

  predicate NewOk(sessions: map<nat, PracticeSession>, job: CleanupJob) {
    Dead(sessions, job.sessionId, job.workspaceId) && job.attempts == 0
  }

  predicate RowsOk(sessions: map<nat, PracticeSession>, jobs: map<nat, CleanupJob>, rows: seq<CleanupJob>) {
    forall i | 0 <= i < |rows| :: RowOk(sessions, jobs, rows[i])
  }

  predicate NewJobsOk(sessions: map<nat, PracticeSession>, jobs: seq<CleanupJob>) {
    forall i | 0 <= i < |jobs| :: NewOk(sessions, jobs[i])
  }

  predicate LocalOk(sessions: map<nat, PracticeSession>, jobs: map<nat, CleanupJob>, local: Local) {
    match local
    case Creating(session) => session.status == Active
    case Checking(session) => CopyOf(sessions, session)
    case Using(session) => CopyOf(sessions, session) && session.status == Active
    case Ending(session, status) => CopyOf(sessions, session) && status != Active
    case Enqueueing(news, _) => NewJobsOk(sessions, news)
    case FallingBack(job, rest) => NewOk(sessions, job) && NewJobsOk(sessions, rest)
    case Sweeping(rows, _) => RowsOk(sessions, jobs, rows)
    case Marking(rows, _, _) => RowsOk(sessions, jobs, rows)
    case Recovering(rows, _, _) => RowsOk(sessions, jobs, rows)
    case Requeueing(id) => id in jobs
    case Done => true
  }

  predicate StoredOk(sessions: map<nat, PracticeSession>, job: CleanupJob) {
    Dead(sessions, job.sessionId, job.workspaceId) && job.attempts <= MAX_ATTEMPTS
  }

  predicate JobsDead(sessions: map<nat, PracticeSession>, jobs: map<nat, CleanupJob>) {
    forall id | id in jobs :: StoredOk(sessions, jobs[id])
  }

  predicate ThreadsOk(sessions: map<nat, PracticeSession>, jobs: map<nat, CleanupJob>, threads: map<nat, Local>) {
    forall t | t in threads :: LocalOk(sessions, jobs, threads[t])
  }

  ghost predicate DeletesDead(sessions: map<nat, PracticeSession>, deletes: set<string>) {
    forall w | w in deletes :: exists id :: Dead(sessions, id, w)
  }

  /** A workspace belongs to one session, stored or about to be. */
  ghost predicate RefsOk(sessions: map<nat, PracticeSession>, threads: map<nat, Local>, issued: set<string>) {
    && RefsDiffer(sessions)
    && (forall id | id in sessions :: sessions[id].runnerRef in issued)
    && (forall t | t in threads && threads[t].Creating? ::
          threads[t].session.runnerRef in issued
          && forall id | id in sessions :: sessions[id].runnerRef != threads[t].session.runnerRef)
    && (forall t, u | t in threads && u in threads && t != u && threads[t].Creating? && threads[u].Creating? ::
          threads[t].session.runnerRef != threads[u].session.runnerRef)
  }

  ghost predicate Inv(s: System) {
    && s.store.Valid()
    && RefsOk(s.store.sessions, s.threads, s.issued)
    && JobsDead(s.store.sessions, s.store.jobs)
    && ThreadsOk(s.store.sessions, s.store.jobs, s.threads)
    && DeletesDead(s.store.sessions, s.deletes)
  }

  // ----- The store only moves forward

  lemma EndMovesForward(st: Store, copy: PracticeSession, status: SessionStatus, now: int)
    requires st.Valid() && CopyOf(st.sessions, copy) && status != Active
    ensures var after := st.UpdateSession(Ended(copy, status, now));
            after.Valid() && Forward(st.sessions, after.sessions) && after.jobs == st.jobs
  {
    st.UpdateKeepsValid(Ended(copy, status, now));
  }

  lemma UpsertMovesForward(st: Store, job: CleanupJob, wall: int)
    requires st.Valid() && JobsDead(st.sessions, st.jobs) && NewOk(st.sessions, job)
    ensures var after := st.Upsert(job, wall);
            after.Valid() && after.sessions == st.sessions && JobsForward(st.jobs, after.jobs) && JobsDead(st.sessions, after.jobs)
  {
    st.UpsertWritesOneRow(job, wall);
    var after := st.Upsert(job, wall);
    var id := after.jobOf[job.sessionId];
    assert id in st.jobs ==> StoredOk(st.sessions, st.jobs[id]);
    OneJobDead(st.sessions, st.jobs, after.jobs, id);
  }

  lemma OneJobDead(sessions: map<nat, PracticeSession>, before: map<nat, CleanupJob>, after: map<nat, CleanupJob>, id: nat)
    requires JobsDead(sessions, before)
    requires after.Keys == before.Keys + {id} && forall other | other in before && other != id :: after[other] == before[other]
    requires StoredOk(sessions, after[id])
    ensures JobsDead(sessions, after)
  {
  }

  lemma ClaimMovesForward(st: Store, now: int, limit: nat)
    requires st.Valid() && JobsDead(st.sessions, st.jobs)
    ensures var after := st.Claim(now, limit);
            && after.Valid() && after.sessions == st.sessions && JobsForward(st.jobs, after.jobs) && JobsDead(st.sessions, after.jobs)
            && RowsOk(st.sessions, after.jobs, st.ClaimedRows(now, limit))
  {
    var after, rows := st.Claim(now, limit), st.ClaimedRows(now, limit);
    RowsAreTheClaimedJobs(st, now, limit);
    forall id | id in st.jobs
      ensures StoredOk(st.sessions, after.jobs[id])
    {
      assert StoredOk(st.sessions, st.jobs[id]);
      ClaimTakesTheFirstDue(st, now, limit, id);
    }
    forall i | 0 <= i < |rows|
      ensures RowOk(st.sessions, after.jobs, rows[i])
    {
      assert StoredOk(st.sessions, after.jobs[rows[i].id]);
    }
  }

  /** Writing another status, schedule or attempt count to a job. */
  lemma RewriteMovesForward(st: Store, id: nat, job: CleanupJob)
    requires st.Valid() && JobsDead(st.sessions, st.jobs) && id in st.jobs
    requires job == st.jobs[id].(status := job.status, scheduledAt := job.scheduledAt, lastError := job.lastError,
                                 updatedAt := job.updatedAt, attempts := job.attempts)
    requires job.attempts <= MAX_ATTEMPTS || job.attempts == st.jobs[id].attempts
    ensures var after := st.(jobs := st.jobs[id := job]);
            after.Valid() && JobsForward(st.jobs, after.jobs) && JobsDead(st.sessions, after.jobs)
  {
    st.JobWriteKeepsValid(id, job);
    assert StoredOk(st.sessions, st.jobs[id]);
  }

  lemma DeadStaysDead(before: map<nat, PracticeSession>, after: map<nat, PracticeSession>, jobs: map<nat, CleanupJob>)
    requires Forward(before, after) && JobsDead(before, jobs)
    ensures JobsDead(after, jobs)
  {
    forall id | id in jobs
      ensures StoredOk(after, jobs[id])
    {
      assert StoredOk(before, jobs[id]);
    }
  }

  /** What a step does to the stored rows, whatever the copies that the thread holds. */
  ghost predicate StoreMovesOn(st: Store, after: Store) {
    && after.Valid()
    && Forward(st.sessions, after.sessions) && JobsForward(st.jobs, after.jobs)
    && JobsDead(after.sessions, after.jobs)
  }

  lemma CreateStepMovesOn(st: Store, session: PracticeSession)
    requires st.Valid() && JobsDead(st.sessions, st.jobs)
    ensures StoreMovesOn(st, st.CreateSession(session))
  {
    st.CreateKeepsValid(session);
    DeadStaysDead(st.sessions, st.CreateSession(session).sessions, st.jobs);
  }

  lemma EndStepMovesOn(s: System, step: Step)
    requires Inv(s) && Enabled(s, step) && step.EndSession?
    ensures StoreMovesOn(s.store, StoreAfter(s, step))
  {
    var local := s.threads[step.t];
    assert LocalOk(s.store.sessions, s.store.jobs, local);
    EndMovesForward(s.store, local.session, local.status, step.now);
    DeadStaysDead(s.store.sessions, StoreAfter(s, step).sessions, s.store.jobs);
  }

  lemma ExpireStepMovesOn(st: Store, now: int)
    requires st.Valid() && JobsDead(st.sessions, st.jobs)
    ensures StoreMovesOn(st, st.Expire(now, now))
  {
    DeadStaysDead(st.sessions, st.Expire(now, now).sessions, st.jobs);
  }

  lemma SessionStepMovesOn(s: System, step: Step)
    requires Inv(s) && Enabled(s, step)
    requires step.FinishCreate? || step.EndSession? || step.ExpireBatch?
    ensures StoreMovesOn(s.store, StoreAfter(s, step))
  {
    if step.EndSession? {
      EndStepMovesOn(s, step);
    } else if step.ExpireBatch? {
      ExpireStepMovesOn(s.store, step.now);
    } else {
      CreateStepMovesOn(s.store, s.threads[step.t].session);
    }
  }

  lemma EnqueueStepMovesOn(s: System, step: Step)
    requires Inv(s) && Enabled(s, step) && step.EnqueueNext?
    ensures StoreMovesOn(s.store, StoreAfter(s, step))
  {
    assert LocalOk(s.store.sessions, s.store.jobs, s.threads[step.t]);
    UpsertMovesForward(s.store, s.threads[step.t].jobs[0], step.write.wall);
  }

  lemma RecoverStepMovesOn(s: System, step: Step)
    requires Inv(s) && Enabled(s, step) && step.RecoverNext?
    ensures StoreMovesOn(s.store, StoreAfter(s, step))
  {
    assert LocalOk(s.store.sessions, s.store.jobs, s.threads[step.t]);
    var row := s.threads[step.t].rows[0];
    assert RowOk(s.store.sessions, s.store.jobs, row);
    UpsertMovesForward(s.store, NewJob(row.sessionId, row.workspaceId, row.reason, s.threads[step.t].at), step.write.wall);
  }

  lemma JobStepMovesOn(s: System, step: Step)
    requires Inv(s) && Enabled(s, step)
    requires step.EnqueueNext? || step.RecoverNext? || step.ClaimBatch?
    ensures StoreMovesOn(s.store, StoreAfter(s, step))
  {
    if step.EnqueueNext? {
      EnqueueStepMovesOn(s, step);
    } else if step.RecoverNext? {
      RecoverStepMovesOn(s, step);
    } else {
      ClaimMovesForward(s.store, step.now, EffectiveLimit(step.limit));
    }
  }

  lemma MarkStepMovesOn(s: System, step: Step)
    requires Inv(s) && Enabled(s, step)
    requires step.Mark? || step.RequeueRead?
    ensures StoreMovesOn(s.store, StoreAfter(s, step))
  {
    var st, after := s.store, StoreAfter(s, step);
    var id := if step.Mark? then s.threads[step.t].rows[0].id else s.threads[step.t].id;
    if after != st {
      RewriteMovesForward(st, id, after.jobs[id]);
    }
  }

  lemma StepMovesOn(s: System, step: Step)
    requires Inv(s) && Enabled(s, step)
    ensures StoreMovesOn(s.store, StoreAfter(s, step))
  {
    if step.FinishCreate? || step.EndSession? || step.ExpireBatch? {
      SessionStepMovesOn(s, step);
    } else if step.EnqueueNext? || step.RecoverNext? || step.ClaimBatch? {
      JobStepMovesOn(s, step);
    } else if step.Mark? || step.RequeueRead? {
      MarkStepMovesOn(s, step);
    } else {
      assert StoreAfter(s, step) == s.store;
    }
  }

  lemma OtherStepsKeepSessions(s: System, step: Step)
    requires s.store.Valid() && Enabled(s, step)
    requires !step.FinishCreate? && !step.EndSession? && !step.ExpireBatch?
    ensures StoreAfter(s, step).sessions == s.store.sessions && StoreAfter(s, step).current == s.store.current
  {
  }

  // ----- The threads keep their promises

  lemma LocalStaysOk(st: Store, after: Store, local: Local)
    requires StoreMovesOn(st, after) && LocalOk(st.sessions, st.jobs, local)
    ensures LocalOk(after.sessions, after.jobs, local)
  {
    match local
    case Enqueueing(news, _) => NewJobsStayOk(st.sessions, after.sessions, news);
    case FallingBack(_, rest) => NewJobsStayOk(st.sessions, after.sessions, rest);
    case Sweeping(rows, _) => RowsStayOk(st, after, rows);
    case Marking(rows, _, _) => RowsStayOk(st, after, rows);
    case Recovering(rows, _, _) => RowsStayOk(st, after, rows);
    case _ =>
  }

  lemma NewJobsStayOk(before: map<nat, PracticeSession>, after: map<nat, PracticeSession>, news: seq<CleanupJob>)
    requires Forward(before, after) && NewJobsOk(before, news)
    ensures NewJobsOk(after, news)
  {
    forall i | 0 <= i < |news|
      ensures NewOk(after, news[i])
    {
      assert NewOk(before, news[i]);
    }
  }

  lemma RowsStayOk(st: Store, after: Store, rows: seq<CleanupJob>)
    requires StoreMovesOn(st, after) && RowsOk(st.sessions, st.jobs, rows)
    ensures RowsOk(after.sessions, after.jobs, rows)
  {
    forall i | 0 <= i < |rows|
      ensures RowOk(after.sessions, after.jobs, rows[i])
    {
      assert RowOk(st.sessions, st.jobs, rows[i]);
    }
  }

  lemma ExpiryJobsAreOk(st: Store, now: int, order: seq<nat>)
    requires st.Valid() && st.ListsStale(order, now)
    ensures NewJobsOk(st.Expire(now, now).sessions, ExpiryJobs(st, order, now))
  {
    var news, after := ExpiryJobs(st, order, now), st.Expire(now, now).sessions;
    forall i | 0 <= i < |news|
      ensures NewOk(after, news[i])
    {
      assert order[i] in order;
    }
  }

  lemma BackfillJobsAreOk(st: Store, now: int, limit: int)
    requires st.Valid()
    ensures NewJobsOk(st.sessions, BackfillJobs(st, now, limit))
  {
    var keys, news := FirstIds(st.MissingIds(), EffectiveLimit(limit)), BackfillJobs(st, now, limit);
    FirstOfIsFirst(IdKeys(st.MissingIds()), EffectiveLimit(limit));
    forall i | 0 <= i < |news|
      ensures NewOk(st.sessions, news[i])
    {
      assert keys[i] in keys;
    }
  }

  /** A new thread starts with what the store holds. */
  lemma FirstLocalIsOk(s: System, step: Step)
    requires Inv(s) && Enabled(s, step)
    requires step.BeginCreate? || step.Read? || step.ExpireBatch? || step.ListMissing? || step.ClaimBatch? || step.ReadExhausted?
    ensures LocalOk(StoreAfter(s, step).sessions, StoreAfter(s, step).jobs, LocalAfter(s, step))
  {
    match step
    case ExpireBatch(_, now, order) => ExpiryJobsAreOk(s.store, now, order);
    case ListMissing(_, now, limit) => BackfillJobsAreOk(s.store, now, limit);
    case ClaimBatch(_, now, limit) => ClaimMovesForward(s.store, now, EffectiveLimit(limit));
    case _ =>
  }

  /** What the thread held is still right after its own step. */
  lemma OwnLocalStaysOk(s: System, step: Step)
    requires Inv(s) && Enabled(s, step) && step.t in s.threads
    ensures LocalOk(StoreAfter(s, step).sessions, StoreAfter(s, step).jobs, s.threads[step.t])
  {
    StepMovesOn(s, step);
    assert LocalOk(s.store.sessions, s.store.jobs, s.threads[step.t]);
    LocalStaysOk(s.store, StoreAfter(s, step), s.threads[step.t]);
  }

  lemma SessionLocalIsOk(s: System, step: Step, sessions: map<nat, PracticeSession>, jobs: map<nat, CleanupJob>)
    requires s.store.Valid() && Enabled(s, step) && step.t in s.threads && LocalOk(sessions, jobs, s.threads[step.t])
    requires step.FinishCreate? || step.Check? || step.MissWorkspace? || step.Leave? || step.RequeueRead?
    ensures LocalOk(sessions, jobs, LocalAfter(s, step))
  {
  }

  lemma EnqueueLocalIsOk(s: System, step: Step, sessions: map<nat, PracticeSession>, jobs: map<nat, CleanupJob>)
    requires s.store.Valid() && Enabled(s, step) && step.t in s.threads && LocalOk(sessions, jobs, s.threads[step.t])
    requires step.EnqueueNext? || step.FallBack?
    ensures LocalOk(sessions, jobs, LocalAfter(s, step))
  {
  }

  lemma SweepLocalIsOk(s: System, step: Step, sessions: map<nat, PracticeSession>, jobs: map<nat, CleanupJob>)
    requires s.store.Valid() && Enabled(s, step) && step.t in s.threads && LocalOk(sessions, jobs, s.threads[step.t])
    requires step.DeleteNext? || step.Mark? || step.RecoverNext?
    ensures LocalOk(sessions, jobs, LocalAfter(s, step))
  {
  }

  lemma NextLocalIsOk(s: System, step: Step)
    requires Inv(s) && Enabled(s, step) && step.t in s.threads
    ensures LocalOk(StoreAfter(s, step).sessions, StoreAfter(s, step).jobs, LocalAfter(s, step))
  {
    var after := StoreAfter(s, step);
    OwnLocalStaysOk(s, step);
    if step.EndSession? {
      EndedSessionIsDead(s, step);
    } else if step.EnqueueNext? || step.FallBack? {
      EnqueueLocalIsOk(s, step, after.sessions, after.jobs);
    } else if step.DeleteNext? || step.Mark? || step.RecoverNext? {
      SweepLocalIsOk(s, step, after.sessions, after.jobs);
    } else {
      SessionLocalIsOk(s, step, after.sessions, after.jobs);
    }
  }

  lemma EndedSessionIsDead(s: System, step: Step)
    requires Inv(s) && Enabled(s, step) && step.EndSession?
    ensures LocalOk(StoreAfter(s, step).sessions, StoreAfter(s, step).jobs, LocalAfter(s, step))
  {
    assert LocalOk(s.store.sessions, s.store.jobs, s.threads[step.t]);
  }

  lemma OtherLocalsStayOk(s: System, step: Step)
    requires Inv(s) && Enabled(s, step)
    ensures ThreadsOk(StoreAfter(s, step).sessions, StoreAfter(s, step).jobs, s.threads)
  {
    StepMovesOn(s, step);
    forall t | t in s.threads
      ensures LocalOk(StoreAfter(s, step).sessions, StoreAfter(s, step).jobs, s.threads[t])
    {
      LocalStaysOk(s.store, StoreAfter(s, step), s.threads[t]);
    }
  }

  lemma PutKeepsThreads(sessions: map<nat, PracticeSession>, jobs: map<nat, CleanupJob>, threads: map<nat, Local>, t: nat, local: Local)
    requires ThreadsOk(sessions, jobs, threads) && LocalOk(sessions, jobs, local)
    ensures ThreadsOk(sessions, jobs, Put(threads, t, local))
  {
  }

  lemma StepKeepsThreads(s: System, step: Step)
    requires Inv(s) && Enabled(s, step)
    ensures var after := Apply(s, step); ThreadsOk(after.store.sessions, after.store.jobs, after.threads)
  {
    var after := StoreAfter(s, step);
    OtherLocalsStayOk(s, step);
    if step.t in s.threads {
      NextLocalIsOk(s, step);
    } else {
      FirstLocalIsOk(s, step);
    }
    PutKeepsThreads(after.sessions, after.jobs, s.threads, step.t, LocalAfter(s, step));
  }

  // ----- Workspaces stay apart

  lemma CreationKeepsRefs(s: System, step: Step)
    requires Inv(s) && Enabled(s, step) && (step.BeginCreate? || step.FinishCreate?)
    ensures var after := Apply(s, step); RefsOk(after.store.sessions, after.threads, after.issued)
  {
  }

  lemma OtherStepsKeepRefs(s: System, step: Step)
    requires Inv(s) && Enabled(s, step) && !step.BeginCreate? && !step.FinishCreate?
    ensures var after := Apply(s, step); RefsOk(after.store.sessions, after.threads, after.issued)
  {
    StepMovesOn(s, step);
    OtherStepsCreateNothing(s, step);
    RefsStayApart(s.store.sessions, StoreAfter(s, step).sessions, s.threads, Apply(s, step).threads, s.issued);
  }

  lemma OtherStepsCreateNothing(s: System, step: Step)
    requires s.store.Valid() && Enabled(s, step) && !step.BeginCreate? && !step.FinishCreate?
    ensures StoreAfter(s, step).sessions.Keys == s.store.sessions.Keys
    ensures !LocalAfter(s, step).Creating? && Apply(s, step).issued == s.issued
  {
  }

  lemma RefsStayApart(before: map<nat, PracticeSession>, after: map<nat, PracticeSession>,
                      threads: map<nat, Local>, next: map<nat, Local>, issued: set<string>)
    requires RefsOk(before, threads, issued)
    requires after.Keys == before.Keys && Forward(before, after)
    requires forall t | t in next && next[t].Creating? :: t in threads && next[t] == threads[t]
    ensures RefsOk(after, next, issued)
  {
  }

  // ----- Deletes

  lemma StepKeepsDeletesDead(s: System, step: Step)
    requires Inv(s) && Enabled(s, step)
    ensures var after := Apply(s, step); DeletesDead(after.store.sessions, after.deletes)
  {
    var after := Apply(s, step);
    StepMovesOn(s, step);
    forall w | w in after.deletes
      ensures exists id :: Dead(after.store.sessions, id, w)
    {
      if w in s.deletes {
        var id :| Dead(s.store.sessions, id, w);
        assert Dead(after.store.sessions, id, w);
      } else {
        DeleteIsDead(s, step);
      }
    }
  }

  /** The workspace that a step deletes belongs to an ended session. */
  lemma DeleteIsDead(s: System, step: Step)
    requires Inv(s) && Enabled(s, step)
    ensures forall w | w in DeleteBy(s, step) :: exists id :: Dead(StoreAfter(s, step).sessions, id, w)
  {
    if step.DeleteNext? {
      var rows := s.threads[step.t].rows;
      assert LocalOk(s.store.sessions, s.store.jobs, s.threads[step.t]);
      assert RowOk(s.store.sessions, s.store.jobs, rows[0]);
      assert Dead(StoreAfter(s, step).sessions, rows[0].sessionId, rows[0].workspaceId);
    } else if step.FallBack? {
      var job := s.threads[step.t].job;
      assert LocalOk(s.store.sessions, s.store.jobs, s.threads[step.t]);
      assert Dead(StoreAfter(s, step).sessions, job.sessionId, job.workspaceId);
    }
  }

  lemma StepKeepsInv(s: System, step: Step)
    requires Inv(s) && Enabled(s, step)
    ensures Inv(Apply(s, step))
  {
    StepMovesOn(s, step);
    StepKeepsThreads(s, step);
    StepKeepsDeletesDead(s, step);
    if step.BeginCreate? || step.FinishCreate? {
      CreationKeepsRefs(s, step);
    } else {
      OtherStepsKeepRefs(s, step);
    }
  }

  // ----- Runs

  ghost predicate IsRun(s: System, steps: seq<Step>)
    decreases |steps|
  {
    steps == [] || (s.store.Valid() && Enabled(s, steps[0]) && IsRun(Apply(s, steps[0]), steps[1..]))
  }

  ghost function Run(s: System, steps: seq<Step>): System
    requires IsRun(s, steps)
    decreases |steps|
  {
    if steps == [] then s else Run(Apply(s, steps[0]), steps[1..])
  }

  const START := System(EMPTY, map[], {}, {})

  lemma StartIsOk()
    ensures Inv(START)
  {
  }

  lemma {:induction false} RunKeepsInv(s: System, steps: seq<Step>)
    requires Inv(s) && IsRun(s, steps)
    ensures Inv(Run(s, steps))
    decreases |steps|
  {
    if steps != [] {
      StepKeepsInv(s, steps[0]);
      RunKeepsInv(Apply(s, steps[0]), steps[1..]);
    }
  }

  /** However the calls interleave, a session that has ended never becomes active again, and keeps its workspace. */
  lemma {:induction false} EndedSessionsStayEnded(s: System, steps: seq<Step>, id: nat)
    requires Inv(s) && IsRun(s, steps)
    requires id in s.store.sessions && s.store.sessions[id].status != Active
    ensures var sessions := Run(s, steps).store.sessions;
            id in sessions && sessions[id].status != Active && sessions[id].runnerRef == s.store.sessions[id].runnerRef
    decreases |steps|
  {
    if steps != [] {
      StepKeepsInv(s, steps[0]);
      StepMovesOn(s, steps[0]);
      EndedSessionsStayEnded(Apply(s, steps[0]), steps[1..], id);
    }
  }

  lemma {:induction false} DeletesAreRemembered(s: System, steps: seq<Step>)
    requires IsRun(s, steps)
    ensures s.deletes <= Run(s, steps).deletes
    decreases |steps|
  {
    if steps != [] {
      DeletesAreRemembered(Apply(s, steps[0]), steps[1..]);
    }
  }

  /** The workspace is nobody's: every session that has it has ended, and none is being created with it. */
  ghost predicate Abandoned(s: System, w: string) {
    && (forall id | id in s.store.sessions && s.store.sessions[id].runnerRef == w :: s.store.sessions[id].status != Active)
    && (forall t | t in s.threads && s.threads[t].Creating? :: s.threads[t].session.runnerRef != w)
  }

  lemma DeletesAreAbandoned(s: System, w: string)
    requires Inv(s) && w in s.deletes
    ensures Abandoned(s, w)
  {
    var id :| Dead(s.store.sessions, id, w);
  }

  /**
   However the calls interleave, a workspace that the runner was ever asked to delete, by a sweep
   or in place of a lost job, is no active session's, then or later.
   */
  lemma DeletesHitOnlyDeadSessions(steps: seq<Step>, later: seq<Step>, w: string)
    requires IsRun(START, steps) && IsRun(Run(START, steps), later)
    requires w in Run(START, steps).deletes
    ensures Abandoned(Run(Run(START, steps), later), w)
  {
    StartIsOk();
    RunKeepsInv(START, steps);
    RunKeepsInv(Run(START, steps), later);
    DeletesAreRemembered(Run(START, steps), later);
    DeletesAreAbandoned(Run(Run(START, steps), later), w);
  }

  /** However the calls interleave, a job names the workspace of an ended session, is its only job, and is attempted at most five times. */
  lemma JobsStayWithEndedSessions(steps: seq<Step>, id: nat, other: nat)
    requires IsRun(START, steps)
    requires id in Run(START, steps).store.jobs
    ensures var st := Run(START, steps).store;
            && StoredOk(st.sessions, st.jobs[id])
            && (other in st.jobs && st.jobs[other].sessionId == st.jobs[id].sessionId ==> other == id)
  {
    StartIsOk();
    RunKeepsInv(START, steps);
    OneJobPerSession(Run(START, steps).store, id, other);
  }

  lemma OneJobPerSession(st: Store, id: nat, other: nat)
    requires st.Valid() && JobsDead(st.sessions, st.jobs) && id in st.jobs
    ensures StoredOk(st.sessions, st.jobs[id])
    ensures other in st.jobs && st.jobs[other].sessionId == st.jobs[id].sessionId ==> other == id
  {
    assert st.jobOf[st.jobs[id].sessionId] == id;
    assert other in st.jobs ==> st.jobOf[st.jobs[other].sessionId] == other;
  }

  // ----- Building runs

  lemma RunThen(s: System, step: Step, rest: seq<Step>)
    requires s.store.Valid() && Enabled(s, step) && IsRun(Apply(s, step), rest)
    ensures IsRun(s, [step] + rest) && Run(s, [step] + rest) == Run(Apply(s, step), rest)
  {
    var steps := [step] + rest;
    assert steps[0] == step && steps[1..] == rest;
  }

  lemma Regroup(steps: seq<Step>, step: Step)
    requires steps != []
    ensures [steps[0]] + (steps[1..] + [step]) == steps + [step]
  {
  }

  lemma {:induction false} RunGoesOn(s: System, steps: seq<Step>, step: Step)
    requires IsRun(s, steps) && Run(s, steps).store.Valid() && Enabled(Run(s, steps), step)
    ensures IsRun(s, steps + [step]) && Run(s, steps + [step]) == Apply(Run(s, steps), step)
    decreases |steps|
  {
    if steps == [] {
      RunThen(s, step, []);
      assert steps + [step] == [step] + [];
    } else {
      RunGoesOn(Apply(s, steps[0]), steps[1..], step);
      RunThen(s, steps[0], steps[1..] + [step]);
      Regroup(steps, step);
    }
  }

  /** Some run from the start ends here. */
  ghost predicate Reachable(s: System) {
    exists steps :: IsRun(START, steps) && Run(START, steps) == s
  }

  lemma ReachableGoesOn(s: System, step: Step)
    requires Reachable(s) && s.store.Valid() && Enabled(s, step)
    ensures Reachable(Apply(s, step))
  {
    var steps :| IsRun(START, steps) && Run(START, steps) == s;
    RunGoesOn(START, steps, step);
  }

  lemma {:induction false} ReachableRunsOn(s: System, steps: seq<Step>)
    requires Reachable(s) && IsRun(s, steps)
    ensures Reachable(Run(s, steps))
    decreases |steps|
  {
    if steps != [] {
      ReachableGoesOn(s, steps[0]);
      ReachableRunsOn(Apply(s, steps[0]), steps[1..]);
    }
  }

  ghost predicate IsAt(s: System, t: nat, local: Local) {
    s.store.Valid() && t in s.threads && s.threads[t] == local
  }
}
