/**
 When a job that is done with can still change. A job that has succeeded, or is stranded, never
 changes again with atomic calls; with calls interleaved it does exactly as long as some thread
 is on its way to write it.
 */
module PracticeInertness {
  import opened Ordering
  import opened PracticeStore
  import opened PracticeCalls
  import opened PracticeInterleaving
  import PracticeJobs
  import PracticeLease

  ghost predicate NamesSession(jobs: seq<CleanupJob>, sessionId: nat) {
    exists i :: 0 <= i < |jobs| && jobs[i].sessionId == sessionId
  }

  ghost predicate NamesJob(rows: seq<CleanupJob>, id: nat) {
    exists i :: 0 <= i < |rows| && rows[i].id == id
  }

  /**
   The thread may still write job `id` of session `sessionId`: it holds an active copy of the
   session, has a job of it to enqueue, has claimed the job, or is about to requeue it.
   */
  ghost predicate MayWrite(local: Local, id: nat, sessionId: nat) {
    match local
    case Creating(_) => false
    case Checking(session) => session.id == sessionId && session.status == Active
    case Using(session) => session.id == sessionId
    case Ending(session, _) => session.id == sessionId
    case Enqueueing(jobs, _) => NamesSession(jobs, sessionId)
    case FallingBack(_, rest) => NamesSession(rest, sessionId)
    case Sweeping(rows, _) => NamesJob(rows, id)
    case Marking(rows, _, _) => NamesJob(rows, id)
    case Recovering(rows, _, _) => NamesJob(rows, id)
    case Requeueing(x) => x == id
    case Done => false
  }

  ghost predicate AnyMayWrite(s: System, id: nat, sessionId: nat) {
    exists t :: t in s.threads && MayWrite(s.threads[t], id, sessionId)
  }

  /** An inert job that no thread may write. */
  ghost predicate Quiet(s: System, id: nat, job: CleanupJob) {
    && id in s.store.jobs && s.store.jobs[id] == job && PracticeJobs.Inert(job)
    && !AnyMayWrite(s, id, job.sessionId)
  }

  // ----- A quiet job stays as it is

  lemma RowsOfOtherJobs(st: Store, row: CleanupJob, id: nat)
    requires st.Valid() && RowOk(st.sessions, st.jobs, row) && id in st.jobs && row.id != id
    ensures row.sessionId != st.jobs[id].sessionId
  {
    assert st.jobOf[st.jobs[row.id].sessionId] == row.id && st.jobOf[st.jobs[id].sessionId] == id;
  }

  lemma ClaimPassesInert(st: Store, now: int, limit: nat, id: nat)
    requires st.Valid() && id in st.jobs && PracticeJobs.Inert(st.jobs[id])
    ensures !st.Claims(id, now, limit) && id in st.Claim(now, limit).jobs && st.Claim(now, limit).jobs[id] == st.jobs[id]
    ensures !NamesJob(st.ClaimedRows(now, limit), id)
  {
    ClaimTakesTheFirstDue(st, now, limit, id);
    RowsAreTheClaimedJobs(st, now, limit);
  }

  /** Where a thread that may not write the job goes on from. */
  lemma NotAmongFirst(rows: seq<CleanupJob>, id: nat)
    requires rows != [] && !NamesJob(rows, id)
    ensures rows[0].id != id && !NamesJob(rows[1..], id)
  {
    assert forall i | 0 <= i < |rows[1..]| :: rows[1..][i] == rows[i + 1];
  }

  lemma NotAmongFirstSessions(jobs: seq<CleanupJob>, sessionId: nat)
    requires jobs != [] && !NamesSession(jobs, sessionId)
    ensures jobs[0].sessionId != sessionId && !NamesSession(jobs[1..], sessionId)
  {
    assert forall i | 0 <= i < |jobs[1..]| :: jobs[1..][i] == jobs[i + 1];
  }

  lemma QuietStepWritesNothing(s: System, step: Step, id: nat, job: CleanupJob)
    requires Inv(s) && Enabled(s, step) && Quiet(s, id, job)
    ensures !PracticeLease.Writes(s, step, id)
  {
    assert step.t in s.threads ==> !MayWrite(s.threads[step.t], id, job.sessionId);
    if step.EnqueueNext? {
      NotAmongFirstSessions(s.threads[step.t].jobs, job.sessionId);
    } else if step.Mark? || step.RecoverNext? {
      var rows := s.threads[step.t].rows;
      assert LocalOk(s.store.sessions, s.store.jobs, s.threads[step.t]);
      assert RowOk(s.store.sessions, s.store.jobs, rows[0]);
      NotAmongFirst(rows, id);
      RowsOfOtherJobs(s.store, rows[0], id);
    }
  }

  lemma QuietStepKeepsJob(s: System, step: Step, id: nat, job: CleanupJob)
    requires Inv(s) && Enabled(s, step) && Quiet(s, id, job)
    ensures id in StoreAfter(s, step).jobs && StoreAfter(s, step).jobs[id] == job
  {
    if step.ClaimBatch? {
      ClaimPassesInert(s.store, step.now, EffectiveLimit(step.limit), id);
    } else {
      QuietStepWritesNothing(s, step, id, job);
      PracticeLease.UnwrittenStepKeepsJob(s, step, id);
    }
  }

  lemma ExpiryPassesEnded(st: Store, order: seq<nat>, now: int, sessionId: nat)
    requires st.ListsStale(order, now) && sessionId in st.sessions && st.sessions[sessionId].status != Active
    ensures !NamesSession(ExpiryJobs(st, order, now), sessionId)
  {
    var jobs := ExpiryJobs(st, order, now);
    assert forall i | 0 <= i < |jobs| :: jobs[i].sessionId == order[i] && order[i] in order;
  }

  lemma BackfillPassesSessionsWithJobs(st: Store, now: int, limit: int, sessionId: nat)
    requires st.Valid() && sessionId in st.jobOf
    ensures !NamesSession(BackfillJobs(st, now, limit), sessionId)
  {
    var keys, jobs := FirstIds(st.MissingIds(), EffectiveLimit(limit)), BackfillJobs(st, now, limit);
    FirstIdsAre(st.MissingIds(), EffectiveLimit(limit));
    assert forall i | 0 <= i < |jobs| :: keys[i] in keys && jobs[i].sessionId == keys[i].id;
  }

  lemma ReaderIsQuiet(s: System, step: Step, id: nat, job: CleanupJob)
    requires Inv(s) && Enabled(s, step) && Quiet(s, id, job)
    requires step.BeginCreate? || step.Read? || step.ReadExhausted?
    ensures !MayWrite(LocalAfter(s, step), id, job.sessionId)
  {
    assert StoredOk(s.store.sessions, s.store.jobs[id]);
  }

  lemma ListerIsQuiet(s: System, step: Step, id: nat, job: CleanupJob)
    requires s.store.Valid() && Enabled(s, step) && Quiet(s, id, job)
    requires job.sessionId in s.store.sessions && s.store.sessions[job.sessionId].status != Active
    requires step.ExpireBatch? || step.ListMissing? || step.ClaimBatch?
    ensures !MayWrite(LocalAfter(s, step), id, job.sessionId)
  {
    match step
    case ExpireBatch(_, now, order) => ExpiryPassesEnded(s.store, order, now, job.sessionId);
    case ListMissing(_, now, limit) => BackfillPassesSessionsWithJobs(s.store, now, limit, job.sessionId);
    case ClaimBatch(_, now, limit) => ClaimPassesInert(s.store, now, EffectiveLimit(limit), id);
  }

  /** A new thread does not come by a way to write the job. */
  lemma FirstLocalIsQuiet(s: System, step: Step, id: nat, job: CleanupJob)
    requires Inv(s) && Enabled(s, step) && Quiet(s, id, job) && step.t !in s.threads
    ensures !MayWrite(LocalAfter(s, step), id, job.sessionId)
  {
    if step.BeginCreate? || step.Read? || step.ReadExhausted? {
      ReaderIsQuiet(s, step, id, job);
    } else {
      assert StoredOk(s.store.sessions, s.store.jobs[id]);
      ListerIsQuiet(s, step, id, job);
    }
  }

  /** A thread that may not write the job does not come by a way to. */
  lemma SessionLocalIsQuiet(s: System, step: Step, id: nat, sessionId: nat)
    requires s.store.Valid() && Enabled(s, step) && step.t in s.threads && !MayWrite(s.threads[step.t], id, sessionId)
    requires step.FinishCreate? || step.Check? || step.MissWorkspace? || step.Leave? || step.EndSession? || step.RequeueRead?
    ensures !MayWrite(LocalAfter(s, step), id, sessionId)
  {
  }

  lemma EnqueueLocalIsQuiet(s: System, step: Step, id: nat, sessionId: nat)
    requires s.store.Valid() && Enabled(s, step) && step.t in s.threads && !MayWrite(s.threads[step.t], id, sessionId)
    requires step.EnqueueNext? || step.FallBack?
    ensures !MayWrite(LocalAfter(s, step), id, sessionId)
  {
    if step.EnqueueNext? {
      NotAmongFirstSessions(s.threads[step.t].jobs, sessionId);
    }
  }

  lemma SweepLocalIsQuiet(s: System, step: Step, id: nat, sessionId: nat)
    requires s.store.Valid() && Enabled(s, step) && step.t in s.threads && !MayWrite(s.threads[step.t], id, sessionId)
    requires step.DeleteNext? || step.Mark? || step.RecoverNext?
    ensures !MayWrite(LocalAfter(s, step), id, sessionId)
  {
    NotAmongFirst(s.threads[step.t].rows, id);
  }

  lemma LocalStaysQuiet(s: System, step: Step, id: nat, job: CleanupJob)
    requires Inv(s) && Enabled(s, step) && Quiet(s, id, job)
    ensures !MayWrite(LocalAfter(s, step), id, job.sessionId)
  {
    if step.t !in s.threads {
      FirstLocalIsQuiet(s, step, id, job);
    } else if step.EnqueueNext? || step.FallBack? {
      EnqueueLocalIsQuiet(s, step, id, job.sessionId);
    } else if step.DeleteNext? || step.Mark? || step.RecoverNext? {
      SweepLocalIsQuiet(s, step, id, job.sessionId);
    } else {
      SessionLocalIsQuiet(s, step, id, job.sessionId);
    }
  }

  lemma StepStaysQuiet(s: System, step: Step, id: nat, job: CleanupJob)
    requires Inv(s) && Enabled(s, step) && Quiet(s, id, job)
    ensures Quiet(Apply(s, step), id, job)
  {
    QuietStepKeepsJob(s, step, id, job);
    LocalStaysQuiet(s, step, id, job);
    OthersStayQuiet(s.threads, step.t, LocalAfter(s, step), id, job.sessionId);
  }

  lemma OthersStayQuiet(threads: map<nat, Local>, t: nat, local: Local, id: nat, sessionId: nat)
    requires forall u | u in threads :: !MayWrite(threads[u], id, sessionId)
    requires !MayWrite(local, id, sessionId)
    ensures forall u | u in Put(threads, t, local) :: !MayWrite(Put(threads, t, local)[u], id, sessionId)
  {
  }

  /** With no thread left to write it, an inert job never changes again, however the calls interleave. */
  lemma {:induction false} QuietForever(s: System, steps: seq<Step>, id: nat, job: CleanupJob)
    requires Inv(s) && IsRun(s, steps) && Quiet(s, id, job)
    ensures id in Run(s, steps).store.jobs && Run(s, steps).store.jobs[id] == job
    decreases |steps|
  {
    if steps != [] {
      StepKeepsInv(s, steps[0]);
      StepStaysQuiet(s, steps[0], id, job);
      QuietForever(Apply(s, steps[0]), steps[1..], id, job);
    }
  }

  // ----- A thread that may write the job can change it

  ghost predicate Changes(s: System, steps: seq<Step>, id: nat, job: CleanupJob) {
    IsRun(s, steps) && id in Run(s, steps).store.jobs && Run(s, steps).store.jobs[id] != job
  }

  ghost predicate CanChange(s: System, id: nat, job: CleanupJob) {
    exists steps :: Changes(s, steps, id, job)
  }

  lemma ChangedAlready(s: System, id: nat, job: CleanupJob)
    requires id in s.store.jobs && s.store.jobs[id] != job
    ensures CanChange(s, id, job)
  {
    assert Changes(s, [], id, job);
  }

  lemma ChangesAfter(s: System, step: Step, id: nat, job: CleanupJob)
    requires s.store.Valid() && Enabled(s, step) && CanChange(Apply(s, step), id, job)
    ensures CanChange(s, id, job)
  {
    var steps :| Changes(Apply(s, step), steps, id, job);
    RunThen(s, step, steps);
    assert Changes(s, [step] + steps, id, job);
  }

  ghost predicate HasJob(s: System, id: nat, job: CleanupJob) {
    s.store.Valid() && id in s.store.jobs && s.store.jobs[id] == job
  }

  /** A write that is not lost, and that no job has been written with before. */
  function Later(job: CleanupJob): Write {
    Write(false, job.updatedAt + 1)
  }

  lemma EnqueueWrites(s: System, t: nat, jobs: seq<CleanupJob>, fallback: bool, id: nat, job: CleanupJob)
    requires HasJob(s, id, job) && IsAt(s, t, Enqueueing(jobs, fallback)) && jobs != [] && jobs[0].sessionId == job.sessionId
    ensures CanChange(s, id, job)
  {
    var step := EnqueueNext(t, Later(job));
    s.store.UpsertWritesOneRow(jobs[0], Later(job).wall);
    ChangedAlready(Apply(s, step), id, job);
    ChangesAfter(s, step, id, job);
  }

  lemma EnqueueGoesOn(s: System, t: nat, jobs: seq<CleanupJob>, fallback: bool, id: nat, job: CleanupJob)
    requires HasJob(s, id, job) && IsAt(s, t, Enqueueing(jobs, fallback))
    requires jobs != [] && jobs[0].sessionId != job.sessionId && jobs[1..] != []
    ensures var next := Apply(s, EnqueueNext(t, WRITTEN));
            HasJob(next, id, job) && IsAt(next, t, Enqueueing(jobs[1..], fallback))
  {
    UpsertGoesOn(s.store, jobs[0], id, job);
    assert StoreAfter(s, EnqueueNext(t, WRITTEN)) == s.store.Upsert(jobs[0], WRITTEN.wall);
  }

  lemma {:induction false} EnqueuerChanges(s: System, t: nat, jobs: seq<CleanupJob>, fallback: bool, id: nat, job: CleanupJob)
    requires HasJob(s, id, job) && IsAt(s, t, Enqueueing(jobs, fallback)) && NamesSession(jobs, job.sessionId)
    ensures CanChange(s, id, job)
    decreases |jobs|
  {
    if jobs[0].sessionId == job.sessionId {
      EnqueueWrites(s, t, jobs, fallback, id, job);
    } else {
      OthersNameSession(jobs, job.sessionId);
      EnqueueGoesOn(s, t, jobs, fallback, id, job);
      EnqueuerChanges(Apply(s, EnqueueNext(t, WRITTEN)), t, jobs[1..], fallback, id, job);
      ChangesAfter(s, EnqueueNext(t, WRITTEN), id, job);
    }
  }

  lemma OthersNameSession(jobs: seq<CleanupJob>, sessionId: nat)
    requires NamesSession(jobs, sessionId) && jobs[0].sessionId != sessionId
    ensures NamesSession(jobs[1..], sessionId)
  {
    var i :| 0 <= i < |jobs| && jobs[i].sessionId == sessionId;
    assert jobs[1..][i - 1] == jobs[i];
  }

  lemma OthersNameJob(rows: seq<CleanupJob>, id: nat)
    requires NamesJob(rows, id) && rows[0].id != id
    ensures NamesJob(rows[1..], id)
  {
    var i :| 0 <= i < |rows| && rows[i].id == id;
    assert rows[1..][i - 1] == rows[i];
  }

  ghost predicate AllStored(jobs: map<nat, CleanupJob>, rows: seq<CleanupJob>) {
    forall row | row in rows :: row.id in jobs
  }

  lemma MarkWrites(s: System, t: nat, rows: seq<CleanupJob>, now: int, deleted: bool, id: nat, job: CleanupJob)
    requires HasJob(s, id, job) && IsAt(s, t, Marking(rows, now, deleted)) && rows != [] && rows[0].id == id
    ensures CanChange(s, id, job)
  {
    var step := Mark(t, "", Later(job));
    ChangedAlready(Apply(s, step), id, job);
    ChangesAfter(s, step, id, job);
  }

  lemma MarkGoesOn(s: System, t: nat, rows: seq<CleanupJob>, now: int, deleted: bool, id: nat, job: CleanupJob)
    requires HasJob(s, id, job) && IsAt(s, t, Marking(rows, now, deleted))
    requires rows != [] && rows[0].id in s.store.jobs && rows[0].id != id && rows[1..] != []
    ensures var next := Apply(s, Mark(t, "", WRITTEN));
            HasJob(next, id, job) && IsAt(next, t, Sweeping(rows[1..], now)) && next.store.jobs.Keys == s.store.jobs.Keys
  {
    s.store.JobWriteKeepsValid(rows[0].id, StoreAfter(s, Mark(t, "", WRITTEN)).jobs[rows[0].id]);
  }

  lemma {:induction false} MarkerChanges(s: System, t: nat, rows: seq<CleanupJob>, now: int, deleted: bool, id: nat, job: CleanupJob)
    requires HasJob(s, id, job) && IsAt(s, t, Marking(rows, now, deleted)) && NamesJob(rows, id) && AllStored(s.store.jobs, rows)
    ensures CanChange(s, id, job)
    decreases |rows|, 0
  {
    if rows[0].id == id {
      MarkWrites(s, t, rows, now, deleted, id, job);
    } else {
      OthersNameJob(rows, id);
      MarkGoesOn(s, t, rows, now, deleted, id, job);
      SweeperChanges(Apply(s, Mark(t, "", WRITTEN)), t, rows[1..], now, id, job);
      ChangesAfter(s, Mark(t, "", WRITTEN), id, job);
    }
  }

  lemma {:induction false} SweeperChanges(s: System, t: nat, rows: seq<CleanupJob>, now: int, id: nat, job: CleanupJob)
    requires HasJob(s, id, job) && IsAt(s, t, Sweeping(rows, now)) && NamesJob(rows, id) && AllStored(s.store.jobs, rows)
    ensures CanChange(s, id, job)
    decreases |rows|, 1
  {
    var step := DeleteNext(t, true);
    DeleteGoesOn(s, t, rows, now);
    MarkerChanges(Apply(s, step), t, rows, now, true, id, job);
    ChangesAfter(s, step, id, job);
  }

  lemma DeleteGoesOn(s: System, t: nat, rows: seq<CleanupJob>, now: int)
    requires IsAt(s, t, Sweeping(rows, now)) && rows != []
    ensures var next := Apply(s, DeleteNext(t, true)); next.store == s.store && IsAt(next, t, Marking(rows, now, true))
  {
  }

  lemma RecoverWrites(s: System, t: nat, rows: seq<CleanupJob>, now: int, at: int, id: nat, job: CleanupJob)
    requires HasJob(s, id, job) && IsAt(s, t, Recovering(rows, now, at))
    requires rows != [] && rows[0].sessionId == job.sessionId
    ensures CanChange(s, id, job)
  {
    var step, row := RecoverNext(t, Later(job)), rows[0];
    s.store.UpsertWritesOneRow(NewJob(row.sessionId, row.workspaceId, row.reason, at), Later(job).wall);
    ChangedAlready(Apply(s, step), id, job);
    ChangesAfter(s, step, id, job);
  }

  lemma RecoverGoesOn(s: System, t: nat, rows: seq<CleanupJob>, now: int, at: int, id: nat, job: CleanupJob)
    requires HasJob(s, id, job) && IsAt(s, t, Recovering(rows, now, at))
    requires rows != [] && rows[0].sessionId != job.sessionId && rows[1..] != []
    ensures var next := Apply(s, RecoverNext(t, WRITTEN));
            HasJob(next, id, job) && IsAt(next, t, Sweeping(rows[1..], now)) && s.store.jobs.Keys <= next.store.jobs.Keys
  {
    var upserted := NewJob(rows[0].sessionId, rows[0].workspaceId, rows[0].reason, at);
    UpsertGoesOn(s.store, upserted, id, job);
    assert StoreAfter(s, RecoverNext(t, WRITTEN)) == s.store.Upsert(upserted, WRITTEN.wall);
  }

  lemma UpsertGoesOn(st: Store, upserted: CleanupJob, id: nat, job: CleanupJob)
    requires st.Valid() && id in st.jobs && st.jobs[id] == job && upserted.sessionId != job.sessionId
    ensures var after := st.Upsert(upserted, WRITTEN.wall);
            after.Valid() && id in after.jobs && after.jobs[id] == job && st.jobs.Keys <= after.jobs.Keys
  {
    st.UpsertWritesOneRow(upserted, WRITTEN.wall);
    PracticeLease.UpsertElsewhere(st, upserted, WRITTEN.wall, id);
  }

  lemma RecovererChanges(s: System, t: nat, rows: seq<CleanupJob>, now: int, at: int, id: nat, job: CleanupJob)
    requires HasJob(s, id, job) && IsAt(s, t, Recovering(rows, now, at)) && NamesJob(rows, id)
    requires RowsOk(s.store.sessions, s.store.jobs, rows)
    ensures CanChange(s, id, job)
  {
    assert RowOk(s.store.sessions, s.store.jobs, rows[0]);
    if rows[0].id == id {
      RecoverWrites(s, t, rows, now, at, id, job);
    } else {
      RowsOfOtherJobs(s.store, rows[0], id);
      OthersNameJob(rows, id);
      RecoverGoesOn(s, t, rows, now, at, id, job);
      RowsAreStored(s.store.sessions, s.store.jobs, rows);
      SweeperChanges(Apply(s, RecoverNext(t, WRITTEN)), t, rows[1..], now, id, job);
      ChangesAfter(s, RecoverNext(t, WRITTEN), id, job);
    }
  }

  lemma RowsAreStored(sessions: map<nat, PracticeSession>, jobs: map<nat, CleanupJob>, rows: seq<CleanupJob>)
    requires RowsOk(sessions, jobs, rows)
    ensures AllStored(jobs, rows)
  {
    forall row | row in rows
      ensures row.id in jobs
    {
      var i :| 0 <= i < |rows| && rows[i] == row;
      assert RowOk(sessions, jobs, rows[i]);
    }
  }

  lemma RequeuerChanges(s: System, t: nat, id: nat, job: CleanupJob)
    requires HasJob(s, id, job) && IsAt(s, t, Requeueing(id))
    ensures CanChange(s, id, job)
  {
    var step := RequeueRead(t, 0, Later(job));
    ChangedAlready(Apply(s, step), id, job);
    ChangesAfter(s, step, id, job);
  }

  lemma FallerBackChanges(s: System, t: nat, lost: CleanupJob, rest: seq<CleanupJob>, id: nat, job: CleanupJob)
    requires HasJob(s, id, job) && IsAt(s, t, FallingBack(lost, rest)) && NamesSession(rest, job.sessionId)
    ensures CanChange(s, id, job)
  {
    FallBackGoesOn(s, t, lost, rest);
    EnqueuerChanges(Apply(s, FallBack(t)), t, rest, true, id, job);
    ChangesAfter(s, FallBack(t), id, job);
  }

  lemma FallBackGoesOn(s: System, t: nat, lost: CleanupJob, rest: seq<CleanupJob>)
    requires IsAt(s, t, FallingBack(lost, rest)) && rest != []
    ensures var next := Apply(s, FallBack(t)); next.store == s.store && IsAt(next, t, Enqueueing(rest, true))
  {
  }

  lemma EndGoesOn(s: System, t: nat, copy: PracticeSession, status: SessionStatus)
    requires IsAt(s, t, Ending(copy, status)) && copy.id in s.store.sessions
    ensures var next := Apply(s, EndSession(t, 0, 0, WRITTEN));
            && next.store.Valid() && next.store.jobs == s.store.jobs
            && IsAt(next, t, Enqueueing([NewJob(copy.id, copy.runnerRef, status, JobDueAt(status, 0))], true))
  {
    s.store.UpdateKeepsValid(Ended(copy, status, 0));
  }

  lemma EnderChanges(s: System, t: nat, copy: PracticeSession, status: SessionStatus, id: nat, job: CleanupJob)
    requires HasJob(s, id, job) && IsAt(s, t, Ending(copy, status)) && copy.id in s.store.sessions && copy.id == job.sessionId
    ensures CanChange(s, id, job)
  {
    var step, jobs := EndSession(t, 0, 0, WRITTEN), [NewJob(copy.id, copy.runnerRef, status, JobDueAt(status, 0))];
    EndGoesOn(s, t, copy, status);
    EnqueueWrites(Apply(s, step), t, jobs, true, id, job);
    ChangesAfter(s, step, id, job);
  }

  lemma UserChanges(s: System, t: nat, copy: PracticeSession, id: nat, job: CleanupJob)
    requires HasJob(s, id, job) && IsAt(s, t, Using(copy)) && copy.id in s.store.sessions && copy.id == job.sessionId
    ensures CanChange(s, id, job)
  {
    EnderChanges(Apply(s, MissWorkspace(t)), t, copy, Orphaned, id, job);
    ChangesAfter(s, MissWorkspace(t), id, job);
  }

  lemma CheckerChanges(s: System, t: nat, copy: PracticeSession, id: nat, job: CleanupJob)
    requires HasJob(s, id, job) && IsAt(s, t, Checking(copy)) && copy.status == Active
    requires copy.id in s.store.sessions && copy.id == job.sessionId
    ensures CanChange(s, id, job)
  {
    EnderChanges(Apply(s, Check(t, copy.expiresAt)), t, copy, Expired, id, job);
    ChangesAfter(s, Check(t, copy.expiresAt), id, job);
  }

  lemma WriterChanges(s: System, t: nat, id: nat, job: CleanupJob)
    requires Inv(s) && HasJob(s, id, job) && t in s.threads && MayWrite(s.threads[t], id, job.sessionId)
    ensures CanChange(s, id, job)
  {
    assert LocalOk(s.store.sessions, s.store.jobs, s.threads[t]);
    match s.threads[t]
    case Checking(copy) => CheckerChanges(s, t, copy, id, job);
    case Using(copy) => UserChanges(s, t, copy, id, job);
    case Ending(copy, status) => EnderChanges(s, t, copy, status, id, job);
    case Enqueueing(jobs, fallback) => EnqueuerChanges(s, t, jobs, fallback, id, job);
    case FallingBack(lost, rest) => FallerBackChanges(s, t, lost, rest, id, job);
    case Sweeping(rows, now) =>
      RowsAreStored(s.store.sessions, s.store.jobs, rows);
      SweeperChanges(s, t, rows, now, id, job);
    case Marking(rows, now, deleted) =>
      RowsAreStored(s.store.sessions, s.store.jobs, rows);
      MarkerChanges(s, t, rows, now, deleted, id, job);
    case Recovering(rows, now, at) => RecovererChanges(s, t, rows, now, at, id, job);
    case Requeueing(_) => RequeuerChanges(s, t, id, job);
  }

  // ----- A job that is not inert can always be changed

  lemma {:induction false} Bounded(ids: set<nat>) returns (n: nat)
    ensures forall id | id in ids :: id < n
    decreases |ids|
  {
    if ids == {} {
      n := 0;
    } else {
      var some :| some in ids;
      var m := Bounded(ids - {some});
      n := if some < m then m else some + 1;
      forall id | id in ids
        ensures id < n
      {
        assert id == some || id in ids - {some};
      }
    }
  }

  lemma DueJobChanges(s: System, t: nat, id: nat, job: CleanupJob, now: int)
    requires HasJob(s, id, job) && t !in s.threads && job.Due(now)
    ensures CanChange(s, id, job)
  {
    var limit := |s.store.DueKeys(now)| + 1;
    var step := ClaimBatch(t, now, limit);
    ClaimTakesTheFirstDue(s.store, now, limit, id);
    FirstOfIsFirst(s.store.DueKeys(now), limit);
    s.store.ClaimKeepsValid(now, limit);
    assert s.store.Claims(id, now, limit);
    ChangedAlready(Apply(s, step), id, job);
    ChangesAfter(s, step, id, job);
  }

  lemma ExhaustedJobChanges(s: System, t: nat, id: nat, job: CleanupJob)
    requires HasJob(s, id, job) && t !in s.threads && s.store.IsExhausted(id)
    ensures CanChange(s, id, job)
  {
    RequeuerChanges(Apply(s, ReadExhausted(t, id)), t, id, job);
    ChangesAfter(s, ReadExhausted(t, id), id, job);
  }

  lemma LiveJobChanges(s: System, id: nat, job: CleanupJob)
    requires HasJob(s, id, job) && !PracticeJobs.Inert(job)
    ensures CanChange(s, id, job)
  {
    var t := Bounded(s.threads.Keys);
    if job.status == Failed && job.Exhausted() {
      ExhaustedJobChanges(s, t, id, job);
    } else {
      DueJobChanges(s, t, id, job, if job.status == Running then job.updatedAt + LEASE_TIMEOUT else job.scheduledAt);
    }
  }

  /**
   However the calls interleave, some run changes a job exactly when it is neither succeeded nor
   stranded, or some thread is on its way to write it.
   */
  lemma JobCanChangeIff(s: System, id: nat, job: CleanupJob)
    requires Inv(s) && HasJob(s, id, job)
    ensures CanChange(s, id, job) <==> !PracticeJobs.Inert(job) || AnyMayWrite(s, id, job.sessionId)
  {
    if !PracticeJobs.Inert(job) {
      LiveJobChanges(s, id, job);
    } else if AnyMayWrite(s, id, job.sessionId) {
      var t :| t in s.threads && MayWrite(s.threads[t], id, job.sessionId);
      WriterChanges(s, t, id, job);
    } else {
      QuietCannotChange(s, id, job);
    }
  }

  lemma QuietCannotChange(s: System, id: nat, job: CleanupJob)
    requires Inv(s) && Quiet(s, id, job)
    ensures !CanChange(s, id, job)
  {
    if CanChange(s, id, job) {
      var steps :| Changes(s, steps, id, job);
      QuietForever(s, steps, id, job);
    }
  }
}
