/**
 What the practice service's calls do to the store
 (services/api/internal/service/practice_service.go, practiceService).

 A call is a function of the store, the clock readings it makes, and what the outside world
 does to it: whether the runner deletes a workspace and which store writes are lost. The class
 at the end is the service, proved against these functions.
 */
module PracticeCalls {
  import opened Common
  import opened Ordering
  import opened PracticeStore

  /** One write to the store: lost, or made while the store's own clock read `wall`. */
  datatype Write = Write(lost: bool, wall: int)

  const WRITTEN := Write(false, 0)

  /**
   What happens to one claimed job: whether its workspace was deleted (or was already gone),
   and whether the write of the result, and then that of the recovery, is lost.
   */
  datatype Outcome = Outcome(deleted: bool, error: string, mark: Write, recovery: Write)

  function EffectiveLimit(limit: int): nat {
    if limit <= 0 then 10 else limit
  }

  function RetryDelay(attempt: nat): int {
    if attempt == 1 then MINUTE else if attempt == 2 then 5 * MINUTE else 15 * MINUTE
  }

  function NextWorkspaceCleanupRetryAt(now: int, attempt: nat): int {
    now + RetryDelay(attempt)
  }

  function NewJob(sessionId: nat, workspaceId: string, reason: SessionStatus, scheduledAt: int): CleanupJob {
    CleanupJob(0, sessionId, workspaceId, reason, scheduledAt, Pending, 0, "", 0)
  }

  // ----- Sweeping the due jobs

  function Recover(st: Store, row: CleanupJob, at: int, write: Write): Store {
    if write.lost then st else st.Upsert(NewJob(row.sessionId, row.workspaceId, row.reason, at), write.wall)
  }

  /** When the job may run again after its delete has failed. */
  function FailedUntil(row: CleanupJob, now: int): int {
    if row.Exhausted() then now else NextWorkspaceCleanupRetryAt(now, row.attempts)
  }

  function Settle(st: Store, row: CleanupJob, now: int, o: Outcome): Store {
    if o.deleted then
      if !o.mark.lost && row.id in st.jobs then st.MarkSucceeded(row.id, o.mark.wall)
      else Recover(st, row, now, o.recovery)
    else
      if !o.mark.lost && row.id in st.jobs then st.MarkFailed(row.id, FailedUntil(row, now), o.error, o.mark.wall)
      else Recover(st, row, FailedUntil(row, now), o.recovery)
  }

  function SettleAll(st: Store, rows: seq<CleanupJob>, now: int, world: nat -> Outcome): Store
    decreases |rows|
  {
    if rows == [] then st else SettleAll(Settle(st, rows[0], now, world(rows[0].id)), rows[1..], now, world)
  }

  ghost function Sweep(st: Store, now: int, limit: int, world: nat -> Outcome): Store
    requires st.Valid()
  {
    var n := EffectiveLimit(limit);
    SettleAll(st.Claim(now, n), st.ClaimedRows(now, n), now, world)
  }

  // ----- Creating sessions

  function NewSession(userId: nat, scenarioId: nat, templateId: nat, runnerRef: string, path: string, now: int): PracticeSession {
    PracticeSession(0, userId, scenarioId, templateId, runnerRef, path, Active, now, None, now + SESSION_TTL, now)
  }

  function Create(st: Store, session: PracticeSession, write: Write): Store {
    if write.lost then st else st.CreateSession(session)
  }

  // ----- Ending sessions

  function Enqueue(st: Store, session: PracticeSession, reason: SessionStatus, at: int, write: Write): Store {
    if write.lost then st else st.Upsert(NewJob(session.id, session.runnerRef, reason, at), write.wall)
  }

  /** Three successive readings of the clock by one call. */
  datatype Readings = Readings(first: int, second: int, third: int)
  {
    predicate InOrder(clock: int) {
      clock <= first <= second <= third
    }
  }

  /** Transition and enqueue, from a copy of the session; the job is not enqueued if the transition was not written. */
  function End(st: Store, session: PracticeSession, status: SessionStatus, t: Readings, update: Write, job: Write): Store {
    if update.lost || session.id !in st.sessions then st
    else
      var ended := Ended(session, status, t.second);
      Enqueue(st.UpdateSession(ended), ended, status, JobDueAt(status, t.third), job)
  }

  /** The job of a session that ends at `now` is due at once, or after the grace period. */
  function JobDueAt(status: SessionStatus, now: int): int {
    if status == Orphaned then now + ORPHAN_CLEANUP_GRACE else now
  }

  /** ensureSessionAvailable: an active session whose time is up is expired on sight. */
  function Visit(st: Store, id: nat, t: Readings, update: Write, job: Write): Store
    requires id in st.sessions ==> st.sessions[id].id == id
  {
    if id in st.sessions && st.Stale(id, t.first) then End(st, st.sessions[id], Expired, t, update, job) else st
  }

  /** A call that needs the workspace of a session and learns from the runner that it is gone. */
  function VisitMissing(st: Store, id: nat, t: Readings, update: Write, job: Write): Store
    requires id in st.sessions ==> st.sessions[id].id == id
  {
    if id !in st.sessions || st.sessions[id].status != Active then st
    else End(st, st.sessions[id], if st.Stale(id, t.first) then Expired else Orphaned, t, update, job)
  }

  function EnqueueAll(st: Store, order: seq<nat>, now: int, world: nat -> Write): Store
    decreases |order|
  {
    if order == [] then st
    else if order[0] !in st.sessions then EnqueueAll(st, order[1..], now, world)
    else EnqueueAll(Enqueue(st, st.sessions[order[0]], Expired, now, world(order[0])), order[1..], now, world)
  }

  lemma NextExpired(st: Store, order: seq<nat>, i: nat, now: int, world: nat -> Write)
    requires i < |order| && order[i] in st.sessions
    ensures EnqueueAll(st, order[i..], now, world) ==
            EnqueueAll(Enqueue(st, st.sessions[order[i]], Expired, now, world(order[i])), order[i + 1..], now, world)
  {
    assert order[i..][1..] == order[i + 1..];
  }

  /** The expired sessions are enqueued in the order in which the store returns them. */
  function ExpireStale(st: Store, now: int, order: seq<nat>, world: nat -> Write): Store {
    EnqueueAll(st.Expire(now, now), order, now, world)
  }

  // ----- Reconciliation

  function BackfillAt(session: PracticeSession, now: int): int {
    if session.status == Orphaned && session.endedAt.Some? && session.endedAt.value + ORPHAN_CLEANUP_GRACE > now
    then session.endedAt.value + ORPHAN_CLEANUP_GRACE
    else now
  }

  /** The first lost write ends the call. */
  function BackfillAll(st: Store, keys: seq<Key>, now: int, world: nat -> Write): Store
    decreases |keys|
  {
    if keys == [] || keys[0].id !in st.sessions || world(keys[0].id).lost then st
    else
      var session := st.sessions[keys[0].id];
      var job := NewJob(session.id, session.runnerRef, session.status, BackfillAt(session, now));
      BackfillAll(st.Upsert(job, world(keys[0].id).wall), keys[1..], now, world)
  }

  lemma NextMissing(st: Store, keys: seq<Key>, i: nat, now: int, world: nat -> Write)
    requires i < |keys| && keys[i].id in st.sessions
    ensures BackfillAll(st, keys[i..], now, world) ==
            if world(keys[i].id).lost then st
            else
              var session := st.sessions[keys[i].id];
              var job := NewJob(session.id, session.runnerRef, session.status, BackfillAt(session, now));
              BackfillAll(st.Upsert(job, world(keys[i].id).wall), keys[i + 1..], now, world)
  {
    assert keys[i..][1..] == keys[i + 1..];
  }

  ghost function Reconcile(st: Store, now: int, limit: int, world: nat -> Write): Store {
    BackfillAll(st, FirstIds(st.MissingIds(), EffectiveLimit(limit)), now, world)
  }

  /** No write of a listed session's job is lost. */
  predicate NoneLost(keys: seq<Key>, writes: nat -> Write) {
    forall k | k in keys :: !writes(k.id).lost
  }

  function Min(a: nat, b: nat): nat {
    if a < b then a else b
  }

  lemma FirstIdsAre(ids: set<nat>, limit: nat)
    ensures var keys := FirstIds(ids, limit);
            |keys| == Min(|ids|, limit) && forall k | k in keys :: k == Key(0, k.id) && k.id in ids
  {
    FirstOfIsFirst(IdKeys(ids), limit);
    IdKeysAreAsMany(ids);
  }

  // ----- Requeueing

  function RequeueExhausted(st: Store, id: nat, now: int, write: Write): Store {
    if st.IsExhausted(id) && !write.lost then st.Requeue(id, now, write.wall) else st
  }

  // ----- The effect of a sweep, job by job

  /** A claimed job after its delete and the writes that follow. */
  function Settled(row: CleanupJob, now: int, o: Outcome): CleanupJob {
    var at := if o.deleted then now else FailedUntil(row, now);
    if !o.mark.lost then
      if o.deleted then row.(status := Succeeded, lastError := "", updatedAt := o.mark.wall)
      else row.(status := Failed, scheduledAt := at, lastError := o.error, updatedAt := o.mark.wall)
    else if !o.recovery.lost then
      row.(status := Pending, scheduledAt := at, lastError := "", updatedAt := o.recovery.wall)
    else row
  }

  lemma SettleChangesOneJob(st: Store, row: CleanupJob, now: int, o: Outcome)
    requires st.Valid() && row.id in st.jobs && st.jobs[row.id] == row
    ensures Settle(st, row, now, o) == st.(jobs := st.jobs[row.id := Settled(row, now, o)])
    ensures Settle(st, row, now, o).Valid()
  {
    assert st.jobs[row.id := row] == st.jobs;
  }

  /** Settling the jobs in `rows` has changed each by its own outcome, and left the others alone. */
  ghost predicate RowsSettled(before: map<nat, CleanupJob>, after: map<nat, CleanupJob>, rows: seq<CleanupJob>, now: int, world: nat -> Outcome) {
    && after.Keys == before.Keys
    && (forall i | 0 <= i < |rows| :: rows[i].id in after && after[rows[i].id] == Settled(rows[i], now, world(rows[i].id)))
    && (forall id | id in before && before[id] !in rows :: after[id] == before[id])
  }

  predicate RowsStored(jobs: map<nat, CleanupJob>, rows: seq<CleanupJob>) {
    && (forall i | 0 <= i < |rows| :: rows[i].id in jobs && jobs[rows[i].id] == rows[i])
    && (forall i, j | 0 <= i < j < |rows| :: rows[i].id != rows[j].id)
  }

  lemma LaterRowsStored(jobs: map<nat, CleanupJob>, rows: seq<CleanupJob>, settled: CleanupJob)
    requires RowsStored(jobs, rows) && rows != []
    ensures RowsStored(jobs[rows[0].id := settled], rows[1..])
  {
  }

  lemma OneMoreSettled(before: map<nat, CleanupJob>, after: map<nat, CleanupJob>, rows: seq<CleanupJob>, now: int, world: nat -> Outcome)
    requires RowsStored(before, rows) && rows != []
    requires var settled := Settled(rows[0], now, world(rows[0].id));
             settled.id == rows[0].id && RowsSettled(before[rows[0].id := settled], after, rows[1..], now, world)
    ensures RowsSettled(before, after, rows, now, world)
  {
    var row := rows[0];
    var settled := Settled(row, now, world(row.id));
    var next := before[row.id := settled];
    assert settled !in rows[1..];
    assert after[row.id] == next[row.id];
    forall i | 0 <= i < |rows|
      ensures rows[i].id in after && after[rows[i].id] == Settled(rows[i], now, world(rows[i].id))
    {
      assert i > 0 ==> rows[i] == rows[1..][i - 1];
    }
    forall id | id in before && before[id] !in rows
      ensures after[id] == before[id]
    {
      assert row in rows && id != row.id;
      assert next[id] == before[id];
    }
  }

  lemma {:induction false} SettleAllEffect(st: Store, rows: seq<CleanupJob>, now: int, world: nat -> Outcome)
    requires st.Valid() && RowsStored(st.jobs, rows)
    ensures var after := SettleAll(st, rows, now, world);
            after == st.(jobs := after.jobs) && after.Valid() && RowsSettled(st.jobs, after.jobs, rows, now, world)
    decreases |rows|
  {
    if rows != [] {
      var row := rows[0];
      SettleChangesOneJob(st, row, now, world(row.id));
      LaterRowsStored(st.jobs, rows, Settled(row, now, world(row.id)));
      SettleAllEffect(Settle(st, row, now, world(row.id)), rows[1..], now, world);
      OneMoreSettled(st.jobs, SettleAll(st, rows, now, world).jobs, rows, now, world);
    }
  }

  /** The claimed rows are the claimed jobs, each once, as the claim leaves them. */
  lemma RowsAreTheClaimedJobs(st: Store, now: int, limit: int)
    requires st.Valid()
    ensures var rows, claimed := st.ClaimedRows(now, limit), st.Claim(now, limit);
            && claimed.Valid()
            && (forall i | 0 <= i < |rows| ::
                  st.Claims(rows[i].id, now, limit) && st.jobs[rows[i].id].Due(now) && claimed.jobs[rows[i].id] == rows[i])
            && (forall i, j | 0 <= i < j < |rows| :: rows[i].id != rows[j].id)
            && (forall id | id in st.jobs :: claimed.jobs[id] in rows <==> st.Claims(id, now, limit))
  {
    var keys, rows, claimed := st.ClaimKeys(now, limit), st.ClaimedRows(now, limit), st.Claim(now, limit);
    st.ClaimKeepsValid(now, limit);
    st.DueKeysNameJobs(now);
    FirstOfIsFirst(st.DueKeys(now), LimitOf(limit));
    forall i | 0 <= i < |rows|
      ensures st.Claims(rows[i].id, now, limit) && st.jobs[rows[i].id].Due(now) && claimed.jobs[rows[i].id] == rows[i]
    {
      assert keys[i] in keys;
    }
    forall i, j | 0 <= i < j < |rows|
      ensures rows[i].id != rows[j].id
    {
      assert keys[i] in keys && keys[j] in keys && Less(keys[i], keys[j]);
    }
    forall id | id in st.jobs
      ensures claimed.jobs[id] in rows <==> st.Claims(id, now, limit)
    {
      if st.Claims(id, now, limit) {
        var i :| 0 <= i < |keys| && keys[i] == st.jobs[id].Key();
        assert rows[i] == claimed.jobs[id];
      }
    }
  }

  /** A sweep changes the jobs that it claims and nothing else, each according to its own outcome. */
  lemma SweepEffect(st: Store, now: int, limit: int, world: nat -> Outcome)
    requires st.Valid()
    ensures var after := Sweep(st, now, limit, world);
            && after == st.(jobs := after.jobs) && after.Valid() && after.jobs.Keys == st.jobs.Keys
            && forall id | id in st.jobs ::
                 after.jobs[id] == if st.Claims(id, now, EffectiveLimit(limit))
                                   then Settled(st.jobs[id].Claimed(now), now, world(id)) else st.jobs[id]
  {
    var n := EffectiveLimit(limit);
    var rows, claimed := st.ClaimedRows(now, n), st.Claim(now, n);
    RowsAreTheClaimedJobs(st, now, n);
    SettleAllEffect(claimed, rows, now, world);
    var after := SettleAll(claimed, rows, now, world);
    forall id | id in st.jobs
      ensures after.jobs[id] == if st.Claims(id, now, n) then Settled(st.jobs[id].Claimed(now), now, world(id)) else st.jobs[id]
    {
      if st.Claims(id, now, n) {
        var i :| 0 <= i < |rows| && rows[i] == claimed.jobs[id];
        assert rows[i].id == id;
      }
    }
  }

  /** The claim takes due jobs only, and passes over a due job only for `limit` jobs that come before it. */
  lemma ClaimTakesTheFirstDue(st: Store, now: int, limit: nat, id: nat)
    requires st.Valid() && id in st.jobs
    ensures st.Claims(id, now, limit) ==> st.jobs[id].Due(now)
    ensures st.jobs[id].Due(now) && !st.Claims(id, now, limit) ==>
              && |st.ClaimKeys(now, limit)| == limit
              && forall k | k in st.ClaimKeys(now, limit) :: Less(k, st.jobs[id].Key())
  {
    st.DueKeysNameJobs(now);
    FirstOfIsFirst(st.DueKeys(now), limit);
  }

  lemma SettleKeepsJobs(st: Store, row: CleanupJob, now: int, o: Outcome)
    requires st.Valid()
    ensures Settle(st, row, now, o).Valid() && st.jobs.Keys <= Settle(st, row, now, o).jobs.Keys
  {
    if o.mark.lost || row.id !in st.jobs {
      var at := if o.deleted then now else FailedUntil(row, now);
      st.UpsertWritesOneRow(NewJob(row.sessionId, row.workspaceId, row.reason, at), o.recovery.wall);
    } else {
      st.JobWriteKeepsValid(row.id, Settle(st, row, now, o).jobs[row.id]);
    }
  }

  lemma ClaimedRowsAreStored(st: Store, now: int, limit: int)
    requires st.Valid()
    ensures var rows, claimed := st.ClaimedRows(now, limit), st.Claim(now, limit);
            claimed.Valid() && forall row | row in rows :: row.id in claimed.jobs
  {
    RowsAreTheClaimedJobs(st, now, limit);
    var rows := st.ClaimedRows(now, limit);
    forall row | row in rows
      ensures row.id in st.Claim(now, limit).jobs
    {
      var i :| 0 <= i < |rows| && rows[i] == row;
      assert st.Claims(rows[i].id, now, limit);
    }
  }

  /** The claim takes as many due jobs as the limit allows. */
  lemma ClaimIsFull(st: Store, now: int, limit: nat)
    requires st.Valid()
    ensures |st.ClaimedRows(now, limit)| == Min(|st.DueKeys(now)|, limit)
  {
    FirstOfIsFirst(st.DueKeys(now), limit);
  }

  // ----- The service

  /** A delete asked of the runner, `after` nanoseconds from now. */
  datatype Delete = Delete(workspaceId: string, reason: SessionStatus, after: int)

  datatype ServiceError =
    | InvalidInput
    | WorkspaceNotCreated
    | SessionMissing
    | SessionHasExpired
    | SessionIsOrphaned
    | JobMissing
    | JobNotExhausted
    | WriteFailed

  /** One delete for each row, at once, of its workspace and for its reason, in order. */
  predicate DeletesRows(deletes: seq<Delete>, rows: seq<CleanupJob>) {
    && |deletes| == |rows|
    && forall i | 0 <= i < |rows| :: deletes[i] == Delete(rows[i].workspaceId, rows[i].reason, 0)
  }

  lemma OneMoreDelete(deletes: seq<Delete>, rows: seq<CleanupJob>, i: nat)
    requires i < |rows| && DeletesRows(deletes, rows[..i])
    ensures DeletesRows(deletes + [Delete(rows[i].workspaceId, rows[i].reason, 0)], rows[..i + 1])
  {
  }

  /** A row's delete fails, or the mark of its result does: the write is lost, or the job is not there. */
  predicate GoesWrong(st: Store, row: CleanupJob, o: Outcome) {
    !o.deleted || o.mark.lost || row.id !in st.jobs
  }

  predicate AnyGoesWrong(st: Store, rows: seq<CleanupJob>, now: int, world: nat -> Outcome)
    decreases |rows|
  {
    rows != [] && (
      || GoesWrong(st, rows[0], world(rows[0].id))
      || AnyGoesWrong(Settle(st, rows[0], now, world(rows[0].id)), rows[1..], now, world))
  }

  /** Of stored jobs, something goes wrong exactly if a delete fails or a mark is lost. */
  lemma {:induction false} StoredRowsGoWrongIff(st: Store, rows: seq<CleanupJob>, now: int, world: nat -> Outcome)
    requires st.Valid() && forall row | row in rows :: row.id in st.jobs
    ensures AnyGoesWrong(st, rows, now, world) <==>
            exists row :: row in rows && (!world(row.id).deleted || world(row.id).mark.lost)
    decreases |rows|
  {
    if rows != [] {
      SettleKeepsJobs(st, rows[0], now, world(rows[0].id));
      StoredRowsGoWrongIff(Settle(st, rows[0], now, world(rows[0].id)), rows[1..], now, world);
      assert rows == [rows[0]] + rows[1..];
    }
  }

  /** The delete that takes the place of a job whose write is lost, when the clock reads `now`. */
  function FallbackOf(session: PracticeSession, reason: SessionStatus, at: int, now: int, write: Write): (fallback: Option<Delete>)
    ensures fallback.Some? <==> write.lost && session.runnerRef != ""
    ensures fallback.Some? ==> fallback.value.workspaceId == session.runnerRef && fallback.value.reason == reason
    ensures fallback.Some? ==> fallback.value.after >= 0 && now + fallback.value.after >= at
    ensures fallback.Some? && fallback.value.after > 0 ==> now + fallback.value.after == at
  {
    if write.lost && session.runnerRef != "" then Some(Delete(session.runnerRef, reason, if at > now then at - now else 0))
    else None
  }

  function EndFallback(st: Store, session: PracticeSession, status: SessionStatus, t: Readings, late: int, update: Write, job: Write): Option<Delete> {
    if update.lost || session.id !in st.sessions then None
    else FallbackOf(session, status, JobDueAt(status, t.third), late, job)
  }

  function FallbacksOf(rows: seq<PracticeSession>, now: int, world: nat -> Write, late: nat -> int): seq<Delete> {
    if rows == [] then []
    else
      ListOf(FallbackOf(rows[0], Expired, now, late(rows[0].id), world(rows[0].id))) + FallbacksOf(rows[1..], now, world, late)
  }

  function ListOf(fallback: Option<Delete>): seq<Delete> {
    if fallback.Some? then [fallback.value] else []
  }

  function FallbackCount(rows: seq<PracticeSession>, world: nat -> Write): nat {
    if rows == [] then 0
    else FallbackCount(rows[..|rows| - 1], world)
         + if world(rows[|rows| - 1].id).lost && rows[|rows| - 1].runnerRef != "" then 1 else 0
  }

  lemma FallbacksHead(first: PracticeSession, others: seq<PracticeSession>, now: int, world: nat -> Write, late: nat -> int)
    ensures FallbacksOf([first] + others, now, world, late) ==
            ListOf(FallbackOf(first, Expired, now, late(first.id), world(first.id))) + FallbacksOf(others, now, world, late)
  {
    assert ([first] + others)[1..] == others;
  }

  lemma HeadAndTail<T>(all: seq<T>, last: T)
    requires all != []
    ensures all + [last] == [all[0]] + (all[1..] + [last]) && all == [all[0]] + all[1..]
  {
  }

  lemma {:induction false} FallbacksAppend(rows: seq<PracticeSession>, last: PracticeSession, now: int, world: nat -> Write, late: nat -> int)
    ensures FallbacksOf(rows + [last], now, world, late) ==
            FallbacksOf(rows, now, world, late) + ListOf(FallbackOf(last, Expired, now, late(last.id), world(last.id)))
  {
    if rows == [] {
      FallbacksHead(last, [], now, world, late);
      assert rows + [last] == [last] + [];
    } else {
      FallbacksAppend(rows[1..], last, now, world, late);
      HeadAndTail(rows, last);
      FallbacksHead(rows[0], rows[1..] + [last], now, world, late);
      FallbacksHead(rows[0], rows[1..], now, world, late);
    }
  }

  /** There is a delete for each row whose write is lost, if it has a workspace, in the order of the rows, and no other. */
  lemma {:induction false} FallbacksAre(rows: seq<PracticeSession>, now: int, world: nat -> Write, late: nat -> int, i: nat)
    requires i < |rows|
    ensures var fallbacks := FallbacksOf(rows, now, world, late);
            && |fallbacks| == FallbackCount(rows, world)
            && (world(rows[i].id).lost && rows[i].runnerRef != "" ==>
                  var k := FallbackCount(rows[..i], world);
                  k < |fallbacks| && fallbacks[k].workspaceId == rows[i].runnerRef && fallbacks[k].reason == Expired
                  && fallbacks[k].after == if now > late(rows[i].id) then now - late(rows[i].id) else 0)
    decreases |rows|
  {
    var init, last := rows[..|rows| - 1], rows[|rows| - 1];
    assert rows == init + [last];
    FallbacksAppend(init, last, now, world, late);
    if init == [] {
      assert FallbacksOf(init, now, world, late) == [];
    } else {
      FallbacksAre(init, now, world, late, if i < |init| then i else 0);
    }
    if i < |init| {
      assert init[..i] == rows[..i];
    }
  }

  lemma NextFallback(earlier: seq<Delete>, rows: seq<PracticeSession>, i: nat, now: int, world: nat -> Write, late: nat -> int)
    requires i < |rows|
    ensures var fallback := FallbackOf(rows[i], Expired, now, late(rows[i].id), world(rows[i].id));
            earlier + FallbacksOf(rows[i..], now, world, late) == earlier + ListOf(fallback) + FallbacksOf(rows[i + 1..], now, world, late)
  {
    assert rows[i..][1..] == rows[i + 1..];
  }

  class PracticeService {
    const store: InMemoryPracticeSessionStore

    constructor (store: InMemoryPracticeSessionStore)
      ensures this.store == store
    {
      this.store := store;
    }

    method RunWorkspaceCleanupDueJobs(now: int, limit: int, world: nat -> Outcome) returns (deletes: seq<Delete>, failed: bool)
      requires store.Valid()
      modifies store
      ensures store.Valid() && store.View() == Sweep(old(store.View()), now, limit, world)
      ensures DeletesRows(deletes, old(store.View()).ClaimedRows(now, EffectiveLimit(limit)))
      ensures |deletes| == Min(|old(store.View()).DueKeys(now)|, if limit <= 0 then 10 else limit)
      ensures failed <==>
              exists row :: row in old(store.View()).ClaimedRows(now, EffectiveLimit(limit)) &&
                            (!world(row.id).deleted || world(row.id).mark.lost)
    {
      ClaimedRowsAreStored(store.View(), now, EffectiveLimit(limit));
      ClaimIsFull(store.View(), now, EffectiveLimit(limit));
      var rows := store.ClaimDueWorkspaceCleanupJobs(now, EffectiveLimit(limit));
      StoredRowsGoWrongIff(store.View(), rows, now, world);
      deletes, failed := SettleRows(rows, now, world);
    }

    /** Other calls may have rewritten the rows since they were claimed. */
    method SettleRows(rows: seq<CleanupJob>, now: int, world: nat -> Outcome) returns (deletes: seq<Delete>, failed: bool)
      requires store.Valid()
      modifies store
      ensures store.Valid() && store.View() == SettleAll(old(store.View()), rows, now, world)
      ensures DeletesRows(deletes, rows) && (failed <==> AnyGoesWrong(old(store.View()), rows, now, world))
    {
      deletes, failed := [], false;
      for i := 0 to |rows|
        invariant store.Valid()
        invariant SettleAll(store.View(), rows[i..], now, world) == SettleAll(old(store.View()), rows, now, world)
        invariant DeletesRows(deletes, rows[..i])
        invariant failed || AnyGoesWrong(store.View(), rows[i..], now, world) <==> AnyGoesWrong(old(store.View()), rows, now, world)
      {
        var row := rows[i];
        assert rows[i..][1..] == rows[i + 1..];
        OneMoreDelete(deletes, rows, i);
        deletes := deletes + [Delete(row.workspaceId, row.reason, 0)];
        var wrong := SettleRow(row, now, world(row.id));
        if wrong {
          failed := true;
        }
      }
      assert rows[|rows|..] == [] && rows[..|rows|] == rows;
    }

    method SettleRow(row: CleanupJob, now: int, o: Outcome) returns (failed: bool)
      requires store.Valid()
      modifies store
      ensures store.Valid() && store.View() == Settle(old(store.View()), row, now, o)
      ensures failed <==> GoesWrong(old(store.View()), row, o)
    {
      if o.deleted {
        failed := MarkSucceeded(row, now, o);
      } else {
        var marked := MarkFailed(row, if row.Exhausted() then now else NextWorkspaceCleanupRetryAt(now, row.attempts), now, o);
        failed := true;
      }
    }

    method MarkSucceeded(row: CleanupJob, recoveryAt: int, o: Outcome) returns (failed: bool)
      requires store.Valid() && o.deleted
      modifies store
      ensures store.Valid() && store.View() == Settle(old(store.View()), row, recoveryAt, o)
      ensures failed <==> o.mark.lost || row.id !in old(store.cleanupJobs)
    {
      var error := Some(JobNotFound);
      if !o.mark.lost {
        error := store.MarkWorkspaceCleanupJobSucceeded(row.id, o.mark.wall);
      }
      if error.Some? {
        RecoverClaimed(row, recoveryAt, o.recovery);
      }
      failed := error.Some?;
    }

    method MarkFailed(row: CleanupJob, scheduledAt: int, ghost now: int, o: Outcome) returns (failed: bool)
      requires store.Valid() && !o.deleted && scheduledAt == FailedUntil(row, now)
      modifies store
      ensures store.Valid() && store.View() == Settle(old(store.View()), row, now, o)
      ensures failed <==> o.mark.lost || row.id !in old(store.cleanupJobs)
    {
      var error := Some(JobNotFound);
      if !o.mark.lost {
        error := store.MarkWorkspaceCleanupJobFailed(row.id, scheduledAt, o.error, o.mark.wall);
      }
      if error.Some? {
        RecoverClaimed(row, scheduledAt, o.recovery);
      }
      failed := error.Some?;
    }

    method RecoverClaimed(row: CleanupJob, scheduledAt: int, write: Write)
      requires store.Valid()
      modifies store
      ensures store.Valid() && store.View() == Recover(old(store.View()), row, scheduledAt, write)
    {
      if !write.lost {
        store.UpsertWorkspaceCleanupJob(NewJob(row.sessionId, row.workspaceId, row.reason, scheduledAt), write.wall);
      }
    }

    /** Returns the delete that replaces a job that could not be written, if any. */
    method UpsertWorkspaceCleanupJob(session: PracticeSession, reason: SessionStatus, scheduledAt: int, late: int, write: Write)
      returns (fallback: Option<Delete>)
      requires store.Valid()
      modifies store
      ensures store.Valid() && store.View() == Enqueue(old(store.View()), session, reason, scheduledAt, write)
      ensures fallback == FallbackOf(session, reason, scheduledAt, late, write)
    {
      if write.lost {
        if session.runnerRef == "" {
          return None;
        }
        var deleteAfter := scheduledAt - late;
        if deleteAfter < 0 {
          deleteAfter := 0;
        }
        return Some(Delete(session.runnerRef, reason, deleteAfter));
      }
      store.UpsertWorkspaceCleanupJob(NewJob(session.id, session.runnerRef, reason, scheduledAt), write.wall);
      return None;
    }

    method TransitionSession(session: PracticeSession, status: SessionStatus, now: int, write: Write)
      returns (result: Result<PracticeSession, ServiceError>)
      requires store.Valid()
      modifies store
      ensures store.Valid()
      ensures if write.lost then store.View() == old(store.View()) && result == Err(WriteFailed)
              else if session.id !in old(store.sessions) then store.View() == old(store.View()) && result == Err(SessionMissing)
              else store.View() == old(store.View()).UpdateSession(Ended(session, status, now)) && result == Ok(Ended(session, status, now))
      ensures result.Ok? ==>
                result.value == session.(status := status, lastActivityAt := now,
                                         endedAt := if session.endedAt.Some? then session.endedAt else Some(now))
    {
      var updated := session.(status := status, lastActivityAt := now);
      if updated.endedAt.None? {
        updated := updated.(endedAt := Some(now));
      }
      if write.lost {
        return Err(WriteFailed);
      }
      var stored := store.UpdatePracticeSession(updated);
      result := if stored.Ok? then Ok(stored.value) else Err(SessionMissing);
    }

    /** The session, if it may still be used; `session` is a copy that may be out of date. */
    method EnsureSessionAvailable(session: PracticeSession, t: Readings, late: int, update: Write, job: Write)
      returns (result: Result<PracticeSession, ServiceError>, fallback: Option<Delete>)
      requires store.Valid()
      modifies store
      ensures store.Valid()
      ensures if session.status == Active && session.expiresAt <= t.first then
                && store.View() == End(old(store.View()), session, Expired, t, update, job)
                && fallback == EndFallback(old(store.View()), session, Expired, t, late, update, job)
              else store.View() == old(store.View()) && fallback == None
      ensures result == match session.status
                        case Expired => Err(SessionHasExpired)
                        case Orphaned => Err(SessionIsOrphaned)
                        case Active =>
                          if session.expiresAt > t.first then Ok(session)
                          else if update.lost then Err(WriteFailed)
                          else if session.id !in old(store.sessions) then Err(SessionMissing)
                          else Err(SessionHasExpired)
    {
      fallback := None;
      match session.status {
        case Expired => return Err(SessionHasExpired), None;
        case Orphaned => return Err(SessionIsOrphaned), None;
        case Active =>
      }
      if session.expiresAt <= t.first {
        var updated := TransitionSession(session, Expired, t.second, update);
        if updated.Err? {
          return updated, None;
        }
        fallback := UpsertWorkspaceCleanupJob(updated.value, Expired, t.third, late, job);
        return Err(SessionHasExpired), fallback;
      }
      return Ok(session), None;
    }

    method OrphanSession(session: PracticeSession, t: Readings, late: int, update: Write, job: Write)
      returns (error: ServiceError, fallback: Option<Delete>)
      requires store.Valid()
      modifies store
      ensures store.Valid() && store.View() == End(old(store.View()), session, Orphaned, t, update, job)
      ensures fallback == EndFallback(old(store.View()), session, Orphaned, t, late, update, job)
      ensures error == if update.lost then WriteFailed
                       else if session.id !in old(store.sessions) then SessionMissing else SessionIsOrphaned
    {
      var updated := TransitionSession(session, Orphaned, t.second, update);
      if updated.Err? {
        return updated.error, None;
      }
      fallback := UpsertWorkspaceCleanupJob(updated.value, Orphaned, t.third + ORPHAN_CLEANUP_GRACE, late, job);
      error := SessionIsOrphaned;
    }

    /** With the scenario and template looked up and the runner's workspace, if it made one. */
    method CreatePracticeSession(userId: nat, scenarioId: nat, templateId: nat, workspace: Option<(string, string)>, now: int, write: Write)
      returns (created: Result<PracticeSession, ServiceError>)
      requires store.Valid()
      modifies store
      ensures store.Valid()
      ensures if userId == 0 || scenarioId == 0 then store.View() == old(store.View()) && created == Err(InvalidInput)
              else if workspace.None? then store.View() == old(store.View()) && created == Err(WorkspaceNotCreated)
              else
                var session := NewSession(userId, scenarioId, templateId, workspace.value.0, workspace.value.1, now);
                && store.View() == Create(old(store.View()), session, write)
                && created == if write.lost then Err(WriteFailed) else Ok(session.(id := old(store.nextId)))
      ensures created.Ok? ==>
                var session := created.value;
                && session.id in store.sessions && store.sessions[session.id] == session && session.id !in old(store.sessions)
                && session.userId == userId && session.scenarioId == scenarioId && session.templateId == templateId
                && Some((session.runnerRef, session.workspacePathRef)) == workspace
                && session.status == Active && session.endedAt == None
                && session.startedAt == session.lastActivityAt == now && session.expiresAt == now + 120 * MINUTE
    {
      if userId == 0 || scenarioId == 0 {
        return Err(InvalidInput);
      }
      if workspace.None? {
        return Err(WorkspaceNotCreated);
      }
      if write.lost {
        return Err(WriteFailed);
      }
      var session := PracticeSession(0, userId, scenarioId, templateId, workspace.value.0, workspace.value.1,
                                     Active, now, None, now + SESSION_TTL, now);
      session := store.CreatePracticeSession(session);
      return Ok(session);
    }

    /** The user's newest session, if it is active and has time left; to the user an expired one does not exist. */
    method CurrentPracticeSession(userId: nat, t: Readings, late: int, update: Write, job: Write)
      returns (result: Result<PracticeSession, ServiceError>, fallback: Option<Delete>)
      requires store.Valid()
      modifies store
      ensures store.Valid()
      ensures var st := old(store.View());
              var found := st.CurrentSession(userId);
              if userId == 0 || found.Err? || found.value.userId != userId then
                && store.View() == st && fallback == None
                && result == Err(if userId == 0 then InvalidInput else SessionMissing)
              else
                var session := found.value;
                && store.View() == Visit(st, session.id, t, update, job)
                && fallback == (if st.Stale(session.id, t.first) then EndFallback(st, session, Expired, t, late, update, job) else None)
                && result == match session.status
                             case Expired => Err(SessionMissing)
                             case Orphaned => Err(SessionIsOrphaned)
                             case Active =>
                               if session.expiresAt > t.first then Ok(session)
                               else if update.lost then Err(WriteFailed) else Err(SessionMissing)
    {
      if userId == 0 {
        return Err(InvalidInput), None;
      }
      var found := store.CurrentPracticeSession(userId);
      if found.Err? || found.value.userId != userId {
        return Err(SessionMissing), None;
      }
      result, fallback := EnsureSessionAvailable(found.value, t, late, update, job);
      if result == Err(SessionHasExpired) {
        result := Err(SessionMissing);
      }
    }

    /** Reset, terminal and repository calls, when the runner answers that the workspace is missing. */
    method UseMissingWorkspace(id: nat, userId: nat, t: Readings, late: int, update: Write, job: Write)
      returns (error: ServiceError, fallback: Option<Delete>)
      requires store.Valid()
      modifies store
      ensures store.Valid()
      ensures var st := old(store.View());
              if userId == 0 || id == 0 || id !in st.sessions || st.sessions[id].userId != userId then
                && store.View() == st && fallback == None
                && error == (if userId == 0 || id == 0 then InvalidInput else SessionMissing)
              else
                var session := st.sessions[id];
                var status := if st.Stale(id, t.first) then Expired else Orphaned;
                && store.View() == VisitMissing(st, id, t, update, job)
                && fallback == (if session.status == Active then EndFallback(st, session, status, t, late, update, job) else None)
                && error == (if session.status == Active && update.lost then WriteFailed
                             else if session.status == Expired || st.Stale(id, t.first) then SessionHasExpired
                             else SessionIsOrphaned)
    {
      if userId == 0 || id == 0 {
        return InvalidInput, None;
      }
      var found := store.PracticeSessionById(id);
      if found.Err? || found.value.userId != userId {
        return SessionMissing, None;
      }
      var result;
      result, fallback := EnsureSessionAvailable(found.value, t, late, update, job);
      if result.Err? {
        return result.error, fallback;
      }
      error, fallback := OrphanSession(found.value, t, late, update, job);
    }

    method ExpireStalePracticeSessions(now: int, world: nat -> Write, late: nat -> int)
      returns (expired: seq<PracticeSession>, fallbacks: seq<Delete>, ghost order: seq<nat>)
      requires store.Valid()
      modifies store
      ensures store.Valid() && old(store.View()).ListsStale(order, now)
      ensures RowsOf(old(store.View()).Expire(now, now).sessions, order, expired)
      ensures store.View() == ExpireStale(old(store.View()), now, order, world)
      ensures fallbacks == FallbacksOf(expired, now, world, late)
    {
      expired, order := store.ExpirePracticeSessions(now, now);
      fallbacks := EnqueueExpired(expired, order, now, world, late);
    }

    method EnqueueExpired(rows: seq<PracticeSession>, ghost order: seq<nat>, now: int, world: nat -> Write, late: nat -> int)
      returns (fallbacks: seq<Delete>)
      requires store.Valid() && RowsOf(store.sessions, order, rows)
      modifies store
      ensures store.Valid() && store.View() == EnqueueAll(old(store.View()), order, now, world)
      ensures fallbacks == FallbacksOf(rows, now, world, late)
    {
      ghost var sessions, end := store.sessions, EnqueueAll(store.View(), order, now, world);
      fallbacks := [];
      for i := 0 to |rows|
        invariant store.Valid() && store.sessions == sessions
        invariant EnqueueAll(store.View(), order[i..], now, world) == end
        invariant fallbacks + FallbacksOf(rows[i..], now, world, late) == FallbacksOf(rows, now, world, late)
      {
        NextExpired(store.View(), order, i, now, world);
        NextFallback(fallbacks, rows, i, now, world, late);
        var fallback := UpsertWorkspaceCleanupJob(rows[i], Expired, now, late(rows[i].id), world(rows[i].id));
        fallbacks := fallbacks + ListOf(fallback);
      }
      assert order[|order|..] == [] && rows[|rows|..] == [];
    }

    /** On success, the numbers of jobs backfilled and of exhausted jobs listed. */
    method ReconcileWorkspaceCleanupJobs(now: int, limit: int, world: nat -> Write) returns (result: Result<(nat, nat), ServiceError>)
      requires store.Valid()
      modifies store
      ensures store.Valid() && store.View() == Reconcile(old(store.View()), now, limit, world)
      ensures result.Ok? <==> NoneLost(FirstIds(old(store.View()).MissingIds(), EffectiveLimit(limit)), world)
      ensures result.Ok? ==>
                && result.value.0 == Min(|old(store.View()).MissingIds()|, if limit <= 0 then 10 else limit)
                && result.value.1 == Min(|store.View().ExhaustedIds()|, if limit <= 0 then 10 else limit)
      ensures result.Err? ==> result.error == WriteFailed
    {
      ghost var keys := FirstIds(store.View().MissingIds(), EffectiveLimit(limit));
      FirstIdsAre(store.View().MissingIds(), EffectiveLimit(limit));
      var sessions := store.ListPracticeSessionsMissingWorkspaceCleanupJob(EffectiveLimit(limit));
      var lost := BackfillMissing(sessions, keys, now, world);
      if lost {
        return Err(WriteFailed);
      }
      FirstIdsAre(store.View().ExhaustedIds(), EffectiveLimit(limit));
      var exhausted := store.ListExhaustedWorkspaceCleanupJobs(EffectiveLimit(limit));
      return Ok((|sessions|, |exhausted|));
    }

    method BackfillMissing(rows: seq<PracticeSession>, ghost keys: seq<Key>, now: int, world: nat -> Write) returns (lost: bool)
      requires store.Valid() && |rows| == |keys|
      requires forall i | 0 <= i < |keys| :: keys[i].id in store.sessions && rows[i] == store.sessions[keys[i].id]
      modifies store
      ensures store.Valid() && store.View() == BackfillAll(old(store.View()), keys, now, world)
      ensures lost <==> !NoneLost(keys, world)
    {
      ghost var sessions, end := store.sessions, BackfillAll(store.View(), keys, now, world);
      for i := 0 to |rows|
        invariant store.Valid() && store.sessions == sessions
        invariant BackfillAll(store.View(), keys[i..], now, world) == end
        invariant NoneLost(keys[..i], world)
      {
        NextMissing(store.View(), keys, i, now, world);
        if world(rows[i].id).lost {
          assert keys[i] in keys;
          return true;
        }
        assert keys[..i + 1] == keys[..i] + [keys[i]];
        Backfill(rows[i], now, world(rows[i].id).wall);
      }
      assert keys[|keys|..] == [] && keys[..|keys|] == keys;
      return false;
    }

    method Backfill(session: PracticeSession, now: int, wall: int)
      requires store.Valid()
      modifies store
      ensures store.Valid() && store.sessions == old(store.sessions)
      ensures store.View() == old(store.View()).Upsert(
                NewJob(session.id, session.runnerRef, session.status, BackfillAt(session, now)), wall)
    {
      var scheduledAt := now;
      if session.status == Orphaned && session.endedAt.Some? {
        var graceSchedule := session.endedAt.value + ORPHAN_CLEANUP_GRACE;
        if graceSchedule > scheduledAt {
          scheduledAt := graceSchedule;
        }
      }
      store.UpsertWorkspaceCleanupJob(NewJob(session.id, session.runnerRef, session.status, scheduledAt), wall);
    }

    method RequeueExhaustedWorkspaceCleanupJob(id: nat, now: int, write: Write) returns (error: Option<ServiceError>)
      requires store.Valid()
      modifies store
      ensures store.Valid() && store.View() == RequeueExhausted(old(store.View()), id, now, write)
      ensures error == if id !in old(store.cleanupJobs) then Some(JobMissing)
                       else if !old(store.View()).IsExhausted(id) then Some(JobNotExhausted)
                       else if write.lost then Some(WriteFailed) else None
    {
      if id == 0 {
        return Some(JobMissing);
      }
      var found := store.WorkspaceCleanupJobById(id);
      if found.Err? {
        return Some(JobMissing);
      }
      if found.value.status != Failed || !found.value.Exhausted() {
        return Some(JobNotExhausted);
      }
      if write.lost {
        return Some(WriteFailed);
      }
      var stored := store.RequeueWorkspaceCleanupJob(id, now, write.wall);
      return None;
    }
  }
}
