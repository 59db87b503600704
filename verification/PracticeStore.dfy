/**
 The store of practice sessions and of the workspace-cleanup jobs of ended sessions
 (services/api/internal/service/practice_service.go, InMemoryPracticeSessionStore, and the
 queries of services/api/internal/store/mysql.go).

 `Store` and its functions are the tables and what the queries do to them; the class is the
 in-memory store. Times are integers, in nanoseconds.
 */
module PracticeStore {
  import opened Common
  import opened Ordering

  const MINUTE := 60_000_000_000
  const SESSION_TTL := 120 * MINUTE
  const ORPHAN_CLEANUP_GRACE := 10 * MINUTE
  const MAX_ATTEMPTS := 5
  const LEASE_TIMEOUT := 15 * MINUTE

  datatype SessionStatus = Active | Expired | Orphaned

  datatype PracticeSession = PracticeSession(
    id: nat, userId: nat, scenarioId: nat, templateId: nat, runnerRef: string, workspacePathRef: string,
    status: SessionStatus, startedAt: int, endedAt: Option<int>, expiresAt: int, lastActivityAt: int)

  datatype JobStatus = Pending | Running | Failed | Succeeded

  datatype CleanupJob = CleanupJob(
    id: nat, sessionId: nat, workspaceId: string, reason: SessionStatus, scheduledAt: int,
    status: JobStatus, attempts: nat, lastError: string, updatedAt: int)
  {
    predicate Exhausted() {
      attempts >= MAX_ATTEMPTS
    }

    /** WHERE clause of the claim: due, or claimed so long ago that the lease has run out. */
    predicate Due(now: int) {
      && attempts < MAX_ATTEMPTS
      && match status
         case Pending => scheduledAt <= now
         case Failed => scheduledAt <= now
         case Running => updatedAt <= now - LEASE_TIMEOUT
         case Succeeded => false
    }

    function Key(): Key {
      Ordering.Key(scheduledAt, id)
    }

    function Claimed(now: int): CleanupJob {
      this.(status := Running, attempts := attempts + 1, lastError := "", updatedAt := now)
    }
  }

  datatype StoreError = SessionNotFound | JobNotFound

  function LimitOf(limit: int): nat {
    if limit <= 0 then 0 else limit
  }

  datatype Store = Store(
    nextId: nat, nextJobId: nat,
    sessions: map<nat, PracticeSession>, current: map<nat, nat>,
    jobs: map<nat, CleanupJob>, jobOf: map<nat, nat>)
  {
    /** Rows are filed under their identifiers, and jobs and `jobOf` are each other's inverse. */
    ghost predicate Valid() {
      && nextId > 0 && nextJobId > 0
      && (forall id | id in sessions :: sessions[id].id == id && 0 < id < nextId)
      && (forall id | id in jobs :: jobs[id].id == id && 0 < id < nextJobId)
      && (forall id | id in jobs :: jobs[id].sessionId in jobOf && jobOf[jobs[id].sessionId] == id)
      && (forall sid | sid in jobOf :: jobOf[sid] in jobs && jobs[jobOf[sid]].sessionId == sid)
    }

    // ----- Sessions

    function CreateSession(session: PracticeSession): Store {
      this.(nextId := nextId + 1,
            sessions := sessions[nextId := session.(id := nextId)],
            current := current[session.userId := nextId])
    }

    function CurrentSession(userId: nat): Result<PracticeSession, StoreError> {
      if userId in current && current[userId] in sessions then Ok(sessions[current[userId]]) else Err(SessionNotFound)
    }

    function SessionById(id: nat): Result<PracticeSession, StoreError> {
      if id in sessions then Ok(sessions[id]) else Err(SessionNotFound)
    }

    function UpdateSession(session: PracticeSession): Store
      requires session.id in sessions
    {
      var becomesCurrent :=
        session.userId !in current || current[session.userId] == session.id || session.status == Active;
      this.(sessions := sessions[session.id := session],
            current := if becomesCurrent then current[session.userId := session.id] else current)
    }

    predicate Stale(id: nat, before: int) {
      id in sessions && sessions[id].status == Active && sessions[id].expiresAt <= before
    }

    /** `order` lists the sessions that expire, each once. */
    ghost predicate ListsStale(order: seq<nat>, before: int) {
      NoRepeats(order) && forall id :: id in order <==> Stale(id, before)
    }

    function Expire(before: int, endedAt: int): Store {
      this.(sessions := map id | id in sessions ::
              if Stale(id, before) then Ended(sessions[id], Expired, endedAt) else sessions[id])
    }

    /** `now` is what expiry makes of the sessions when `todo` is still to be looked at and `order` has expired. */
    ghost predicate PartlyExpired(now: map<nat, PracticeSession>, order: seq<nat>, todo: set<nat>, before: int, endedAt: int) {
      && todo <= sessions.Keys == now.Keys
      && (forall id | id in now :: now[id] == if id in order then Ended(sessions[id], Expired, endedAt) else sessions[id])
      && NoRepeats(order)
      && (forall id :: id in order <==> Stale(id, before) && id !in todo)
    }

    lemma SkipOne(now: map<nat, PracticeSession>, order: seq<nat>, todo: set<nat>, id: nat, before: int, endedAt: int)
      requires PartlyExpired(now, order, todo, before, endedAt) && id in todo && !Stale(id, before)
      ensures PartlyExpired(now, order, todo - {id}, before, endedAt)
    {
    }

    lemma ExpireOne(now: map<nat, PracticeSession>, order: seq<nat>, todo: set<nat>, id: nat, before: int, endedAt: int)
      requires PartlyExpired(now, order, todo, before, endedAt) && id in todo && Stale(id, before)
      ensures now[id] == sessions[id]
      ensures PartlyExpired(now[id := Ended(now[id], Expired, endedAt)], order + [id], todo - {id}, before, endedAt)
      ensures id !in order
    {
    }

    lemma AllExpired(now: map<nat, PracticeSession>, order: seq<nat>, before: int, endedAt: int)
      requires PartlyExpired(now, order, {}, before, endedAt)
      ensures now == Expire(before, endedAt).sessions && ListsStale(order, before)
    {
    }

    // ----- Jobs

    function Upsert(job: CleanupJob, wall: int): Store {
      if job.sessionId in jobOf && jobOf[job.sessionId] in jobs then
        var id := jobOf[job.sessionId];
        var updated := jobs[id].(workspaceId := job.workspaceId, reason := job.reason, scheduledAt := job.scheduledAt,
                                 status := job.status, lastError := "", updatedAt := wall);
        this.(jobs := jobs[id := updated])
      else
        this.(nextJobId := nextJobId + 1,
              jobs := jobs[nextJobId := job.(id := nextJobId, updatedAt := wall)],
              jobOf := jobOf[job.sessionId := nextJobId])
    }

    ghost function DueKeys(now: int): set<Key> {
      set id | id in jobs && jobs[id].Due(now) :: jobs[id].Key()
    }

    /** WHERE due ORDER BY scheduled_at, id LIMIT n */
    ghost function ClaimKeys(now: int, limit: int): seq<Key> {
      FirstOf(DueKeys(now), LimitOf(limit))
    }

    ghost predicate Claims(id: nat, now: int, limit: int) {
      id in jobs && jobs[id].Key() in ClaimKeys(now, limit)
    }

    ghost function Claim(now: int, limit: int): Store {
      this.(jobs := map id | id in jobs :: if Claims(id, now, limit) then jobs[id].Claimed(now) else jobs[id])
    }

    /** The rows that the claim returns, as they are after it. */
    ghost function ClaimedRows(now: int, limit: int): seq<CleanupJob>
      requires Valid()
    {
      DueKeysNameJobs(now);
      FirstOfIsFirst(DueKeys(now), LimitOf(limit));
      ClaimedAs(ClaimKeys(now, limit), now)
    }

    function ClaimedAs(keys: seq<Key>, now: int): seq<CleanupJob>
      requires forall k | k in keys :: k.id in jobs
    {
      seq(|keys|, i requires 0 <= i < |keys| => assert keys[i] in keys; jobs[keys[i].id].Claimed(now))
    }

    lemma ClaimKeepsValid(now: int, limit: int)
      requires Valid()
      ensures Claim(now, limit).Valid()
    {
    }

    lemma ClaimNothing(now: int, limit: int)
      requires limit <= 0
      ensures ClaimKeys(now, limit) == [] && Claim(now, limit) == this
    {
      assert Claim(now, limit).jobs == jobs;
    }

    lemma DueKeysNameJobs(now: int)
      requires Valid()
      ensures forall k | k in DueKeys(now) :: k.id in jobs && jobs[k.id].Due(now) && jobs[k.id].Key() == k
    {
    }

    lemma ClaimKeysNameJobs(now: int, limit: int)
      requires Valid()
      ensures Ascending(ClaimKeys(now, limit))
      ensures forall k | k in ClaimKeys(now, limit) :: k.id in jobs && jobs[k.id].Due(now) && jobs[k.id].Key() == k
    {
      DueKeysNameJobs(now);
      FirstOfIsFirst(DueKeys(now), LimitOf(limit));
    }

    lemma ClaimIsMarking(now: int, limit: int, marked: map<nat, CleanupJob>)
      requires marked.Keys == jobs.Keys
      requires forall id | id in jobs :: marked[id] == if jobs[id].Key() in ClaimKeys(now, limit) then jobs[id].Claimed(now) else jobs[id]
      ensures this.(jobs := marked) == Claim(now, limit)
    {
    }

    function MarkSucceeded(id: nat, wall: int): Store
      requires id in jobs
    {
      this.(jobs := jobs[id := jobs[id].(status := Succeeded, lastError := "", updatedAt := wall)])
    }

    function MarkFailed(id: nat, scheduledAt: int, error: string, wall: int): Store
      requires id in jobs
    {
      this.(jobs := jobs[id := jobs[id].(status := Failed, scheduledAt := scheduledAt, lastError := error, updatedAt := wall)])
    }

    function Requeue(id: nat, scheduledAt: int, wall: int): Store
      requires id in jobs
    {
      this.(jobs := jobs[id := jobs[id].(status := Pending, attempts := 0, lastError := "", scheduledAt := scheduledAt, updatedAt := wall)])
    }

    // ----- Every operation keeps the store valid

    lemma CreateKeepsValid(session: PracticeSession)
      requires Valid()
      ensures CreateSession(session).Valid()
    {
    }

    lemma ExpireKeepsValid(before: int, endedAt: int)
      requires Valid()
      ensures Expire(before, endedAt).Valid()
    {
    }

    lemma UpdateKeepsValid(session: PracticeSession)
      requires Valid() && session.id in sessions
      ensures UpdateSession(session).Valid()
    {
    }

    /** An upsert writes one row, new or not, and its session's entry in the index. */
    lemma UpsertWritesOneRow(job: CleanupJob, wall: int)
      requires Valid()
      ensures var after := Upsert(job, wall);
              && after.Valid() && after.sessions == sessions && after.current == current
              && job.sessionId in after.jobOf
              && var id := after.jobOf[job.sessionId];
              && after.jobs.Keys == jobs.Keys + {id}
              && (forall other | other in jobs && other != id :: after.jobs[other] == jobs[other])
              && after.jobs[id] == job.(id := id, lastError := after.jobs[id].lastError, updatedAt := wall,
                                        attempts := if id in jobs then jobs[id].attempts else job.attempts)
              && (id in jobs <==> job.sessionId in jobOf)
              && after.jobOf == jobOf[job.sessionId := id]
    {
    }

    lemma JobWriteKeepsValid(id: nat, job: CleanupJob)
      requires Valid()
      requires id in jobs && job.id == id && job.sessionId == jobs[id].sessionId
      ensures this.(jobs := jobs[id := job]).Valid()
    {
    }

    // ----- Listings

    predicate IsMissing(id: nat) {
      id in sessions && sessions[id].status != Active && id !in jobOf
    }

    /** Ended sessions without a job. */
    function MissingIds(): set<nat> {
      set id | id in sessions && IsMissing(id)
    }

    predicate IsExhausted(id: nat) {
      id in jobs && jobs[id].status == Failed && jobs[id].Exhausted()
    }

    function ExhaustedIds(): set<nat> {
      set id | id in jobs && IsExhausted(id)
    }
  }

  predicate NoRepeats(ids: seq<nat>) {
    forall i, j | 0 <= i < j < |ids| :: ids[i] != ids[j]
  }

  /** `rows` are the sessions listed in `order`, as stored. */
  predicate RowsOf(sessions: map<nat, PracticeSession>, order: seq<nat>, rows: seq<PracticeSession>) {
    |rows| == |order| && forall i | 0 <= i < |order| :: order[i] in sessions && rows[i] == sessions[order[i]]
  }

  lemma OneMoreRow(sessions: map<nat, PracticeSession>, order: seq<nat>, rows: seq<PracticeSession>, row: PracticeSession)
    requires RowsOf(sessions, order, rows) && row.id !in order
    ensures RowsOf(sessions[row.id := row], order + [row.id], rows + [row])
  {
    assert forall i | 0 <= i < |order| :: order[i] in order;
  }

  /** The session ended now, unless it has ended before. */
  function Ended(session: PracticeSession, status: SessionStatus, now: int): PracticeSession {
    session.(status := status, lastActivityAt := now,
             endedAt := if session.endedAt.None? then Some(now) else session.endedAt)
  }

  function IdKeys(ids: set<nat>): set<Key> {
    set id | id in ids :: Key(0, id)
  }

  /** WHERE id IN (...) ORDER BY id LIMIT n */
  ghost function FirstIds(ids: set<nat>, limit: int): seq<Key> {
    FirstOf(IdKeys(ids), LimitOf(limit))
  }

  lemma {:induction false} IdKeysAreAsMany(ids: set<nat>)
    ensures |IdKeys(ids)| == |ids|
    decreases |ids|
  {
    if ids != {} {
      var id :| id in ids;
      IdKeysAreAsMany(ids - {id});
      assert IdKeys(ids) == IdKeys(ids - {id}) + {Key(0, id)};
    }
  }

  const EMPTY := Store(1, 1, map[], map[], map[], map[])

  // ----- The in-memory store

  class InMemoryPracticeSessionStore {
    var nextId: nat
    var nextCleanupJobId: nat
    var sessions: map<nat, PracticeSession>
    var currentByUser: map<nat, nat>
    var cleanupJobs: map<nat, CleanupJob>
    var cleanupJobBySession: map<nat, nat>

    ghost function View(): Store
      reads this
    {
      Store(nextId, nextCleanupJobId, sessions, currentByUser, cleanupJobs, cleanupJobBySession)
    }

    ghost predicate Valid()
      reads this
    {
      View().Valid()
    }

    constructor ()
      ensures Valid() && View() == EMPTY
    {
      nextId := 1;
      nextCleanupJobId := 1;
      sessions := map[];
      currentByUser := map[];
      cleanupJobs := map[];
      cleanupJobBySession := map[];
    }

    method CreatePracticeSession(session: PracticeSession) returns (created: PracticeSession)
      requires Valid()
      modifies this
      ensures Valid() && View() == old(View()).CreateSession(session)
      ensures created == session.(id := old(nextId))
    {
      created := session.(id := nextId);
      nextId := nextId + 1;
      sessions := sessions[created.id := created];
      currentByUser := currentByUser[created.userId := created.id];
    }

    method CurrentPracticeSession(userId: nat) returns (result: Result<PracticeSession, StoreError>)
      ensures result == View().CurrentSession(userId)
    {
      if userId !in currentByUser {
        return Err(SessionNotFound);
      }
      if currentByUser[userId] !in sessions {
        return Err(SessionNotFound);
      }
      return Ok(sessions[currentByUser[userId]]);
    }

    method PracticeSessionById(id: nat) returns (result: Result<PracticeSession, StoreError>)
      ensures result == View().SessionById(id)
    {
      if id !in sessions {
        return Err(SessionNotFound);
      }
      return Ok(sessions[id]);
    }

    method UpdatePracticeSession(session: PracticeSession) returns (result: Result<PracticeSession, StoreError>)
      requires Valid()
      modifies this
      ensures Valid()
      ensures if session.id in old(sessions) then View() == old(View()).UpdateSession(session) && result == Ok(session)
              else View() == old(View()) && result == Err(SessionNotFound)
    {
      if session.id !in sessions {
        return Err(SessionNotFound);
      }
      sessions := sessions[session.id := session];
      if session.userId !in currentByUser || currentByUser[session.userId] == session.id || session.status == Active {
        currentByUser := currentByUser[session.userId := session.id];
      }
      return Ok(session);
    }

    /** The expired sessions come back in some order, `order`, as a Go map is ranged over. */
    method ExpirePracticeSessions(before: int, endedAt: int) returns (expired: seq<PracticeSession>, ghost order: seq<nat>)
      requires Valid()
      modifies this`sessions
      ensures Valid() && View() == old(View()).Expire(before, endedAt)
      ensures old(View()).ListsStale(order, before)
      ensures RowsOf(sessions, order, expired)
    {
      expired, order := [], [];
      ghost var start := View();
      var todo := sessions.Keys;
      while todo != {}
        invariant View() == start.(sessions := sessions)
        invariant start.PartlyExpired(sessions, order, todo, before, endedAt)
        invariant RowsOf(sessions, order, expired)
        decreases todo
      {
        var id :| id in todo;
        var session := sessions[id];
        if session.status != Active || session.expiresAt > before {
          start.SkipOne(sessions, order, todo, id, before, endedAt);
          todo := todo - {id};
          continue;
        }
        start.ExpireOne(sessions, order, todo, id, before, endedAt);
        todo := todo - {id};
        session := session.(status := Expired, lastActivityAt := endedAt);
        if session.endedAt.None? {
          session := session.(endedAt := Some(endedAt));
        }
        OneMoreRow(sessions, order, expired, session);
        sessions := sessions[id := session];
        expired := expired + [session];
        order := order + [id];
      }
      start.AllExpired(sessions, order, before, endedAt);
    }

    method UpsertWorkspaceCleanupJob(job: CleanupJob, wall: int)
      requires Valid()
      modifies this
      ensures Valid() && View() == old(View()).Upsert(job, wall)
    {
      if job.sessionId in cleanupJobBySession {
        var existingId := cleanupJobBySession[job.sessionId];
        var existing := cleanupJobs[existingId];
        existing := existing.(workspaceId := job.workspaceId);
        existing := existing.(reason := job.reason);
        existing := existing.(scheduledAt := job.scheduledAt);
        existing := existing.(status := job.status);
        existing := existing.(lastError := "");
        existing := existing.(updatedAt := wall);
        cleanupJobs := cleanupJobs[existingId := existing];
        return;
      }
      var created := job.(id := nextCleanupJobId, updatedAt := wall);
      nextCleanupJobId := nextCleanupJobId + 1;
      cleanupJobs := cleanupJobs[created.id := created];
      cleanupJobBySession := cleanupJobBySession[created.sessionId := created.id];
    }

    method CollectDue(now: int) returns (due: seq<Key>)
      requires Valid()
      ensures Distinct(due)
      ensures forall k :: k in due <==> k in View().DueKeys(now)
    {
      due := [];
      var staleRunningBefore := now - LEASE_TIMEOUT;
      var todo := cleanupJobs.Keys;
      while todo != {}
        invariant todo <= cleanupJobs.Keys
        invariant Distinct(due)
        invariant forall k :: k in due <==>
                    k.id in cleanupJobs && k.id !in todo && cleanupJobs[k.id].Due(now) && k == cleanupJobs[k.id].Key()
        decreases todo
      {
        var id :| id in todo;
        todo := todo - {id};
        var job := cleanupJobs[id];
        match job.status {
          case Pending | Failed =>
            if job.Exhausted() || job.scheduledAt > now {
              continue;
            }
          case Running =>
            if job.Exhausted() || job.updatedAt > staleRunningBefore {
              continue;
            }
          case Succeeded =>
            continue;
        }
        due := due + [job.Key()];
      }
    }

    method ClaimDueWorkspaceCleanupJobs(now: int, limit: int) returns (rows: seq<CleanupJob>)
      requires Valid()
      modifies this
      ensures Valid() && View() == old(View()).Claim(now, limit)
      ensures rows == old(View()).ClaimedRows(now, limit)
    {
      ghost var start := View();
      start.ClaimKeepsValid(now, limit);
      if limit <= 0 {
        start.ClaimNothing(now, limit);
        return [];
      }
      var due := SelectDue(now, limit);
      start.ClaimKeysNameJobs(now, limit);
      rows := MarkClaimed(due, now);
      start.ClaimIsMarking(now, limit, cleanupJobs);
    }

    method SelectDue(now: int, limit: nat) returns (due: seq<Key>)
      requires Valid()
      ensures due == View().ClaimKeys(now, limit)
    {
      due := CollectDue(now);
      SortedPrefixIsFirst(due, View().DueKeys(now), limit);
      due := Sort(due);
      if |due| > limit {
        due := due[..limit];
      }
    }

    method MarkClaimed(due: seq<Key>, now: int) returns (rows: seq<CleanupJob>)
      requires forall id | id in cleanupJobs :: cleanupJobs[id].id == id
      requires Ascending(due) && forall k | k in due :: k.id in cleanupJobs && cleanupJobs[k.id].Key() == k
      modifies this`cleanupJobs
      ensures cleanupJobs.Keys == old(cleanupJobs).Keys
      ensures forall id | id in cleanupJobs ::
                cleanupJobs[id] == if old(cleanupJobs)[id].Key() in due then old(cleanupJobs)[id].Claimed(now) else old(cleanupJobs)[id]
      ensures rows == old(View()).ClaimedAs(due, now)
    {
      ghost var start := cleanupJobs;
      rows := [];
      for i := 0 to |due|
        invariant |rows| == i
        invariant forall n | 0 <= n < i :: rows[n] == start[due[n].id].Claimed(now)
        invariant cleanupJobs.Keys == start.Keys
        invariant forall id | id in cleanupJobs ::
                    cleanupJobs[id] == if start[id].Key() in due[..i] then start[id].Claimed(now) else start[id]
      {
        assert due[..i + 1] == due[..i] + [due[i]];
        assert due[i] in due && due[i] !in due[..i];
        var job := cleanupJobs[due[i].id];
        job := job.(status := Running, attempts := job.attempts + 1, lastError := "", updatedAt := now);
        cleanupJobs := cleanupJobs[job.id := job];
        rows := rows + [job];
      }
      assert due[..|due|] == due;
    }

    method MarkWorkspaceCleanupJobSucceeded(id: nat, wall: int) returns (error: Option<StoreError>)
      requires Valid()
      modifies this
      ensures Valid()
      ensures if id in old(cleanupJobs) then View() == old(View()).MarkSucceeded(id, wall) && error == None
              else View() == old(View()) && error == Some(JobNotFound)
    {
      if id !in cleanupJobs {
        return Some(JobNotFound);
      }
      var job := cleanupJobs[id];
      job := job.(status := Succeeded, lastError := "", updatedAt := wall);
      cleanupJobs := cleanupJobs[id := job];
      return None;
    }

    method MarkWorkspaceCleanupJobFailed(id: nat, scheduledAt: int, lastError: string, wall: int) returns (error: Option<StoreError>)
      requires Valid()
      modifies this
      ensures Valid()
      ensures if id in old(cleanupJobs) then View() == old(View()).MarkFailed(id, scheduledAt, lastError, wall) && error == None
              else View() == old(View()) && error == Some(JobNotFound)
    {
      if id !in cleanupJobs {
        return Some(JobNotFound);
      }
      var job := cleanupJobs[id];
      job := job.(status := Failed, scheduledAt := scheduledAt, lastError := lastError, updatedAt := wall);
      cleanupJobs := cleanupJobs[id := job];
      return None;
    }

    method WorkspaceCleanupJobById(id: nat) returns (result: Result<CleanupJob, StoreError>)
      ensures result == if id in cleanupJobs then Ok(cleanupJobs[id]) else Err(JobNotFound)
    {
      if id !in cleanupJobs {
        return Err(JobNotFound);
      }
      return Ok(cleanupJobs[id]);
    }

    method RequeueWorkspaceCleanupJob(id: nat, scheduledAt: int, wall: int) returns (error: Option<StoreError>)
      requires Valid()
      modifies this
      ensures Valid()
      ensures if id in old(cleanupJobs) then View() == old(View()).Requeue(id, scheduledAt, wall) && error == None
              else View() == old(View()) && error == Some(JobNotFound)
    {
      if id !in cleanupJobs {
        return Some(JobNotFound);
      }
      var job := cleanupJobs[id];
      job := job.(status := Pending, attempts := 0, lastError := "", scheduledAt := scheduledAt, updatedAt := wall);
      cleanupJobs := cleanupJobs[id := job];
      return None;
    }

    method ListPracticeSessionsMissingWorkspaceCleanupJob(limit: int) returns (listed: seq<PracticeSession>)
      requires Valid()
      ensures var keys := FirstIds(View().MissingIds(), limit);
              |listed| == |keys| && forall i | 0 <= i < |keys| :: keys[i].id in sessions && listed[i] == sessions[keys[i].id]
    {
      FirstOfIsFirst(IdKeys(View().MissingIds()), LimitOf(limit));
      if limit <= 0 {
        return [];
      }
      var ids := SortIds(sessions.Keys);
      listed := [];
      ghost var keys: seq<Key> := [];
      var i := 0;
      while i < |ids| && |listed| < limit
        invariant 0 <= i <= |ids| && |keys| == |listed| <= limit
        invariant forall n | 0 <= n < |keys| ::
                    keys[n].id in sessions && listed[n] == sessions[keys[n].id] && keys[n] == Key(0, keys[n].id)
        invariant Ascending(keys)
        invariant forall k :: k in keys <==> k in ids[..i] && View().IsMissing(k.id)
      {
        assert ids[..i + 1] == ids[..i] + [ids[i]];
        assert ids[i] in ids;
        var session := sessions[ids[i].id];
        i := i + 1;
        if session.status == Active {
          continue;
        }
        if session.id in cleanupJobBySession {
          continue;
        }
        AppendKey(keys, ids, i - 1);
        listed := listed + [session];
        keys := keys + [ids[i - 1]];
      }
      ListedAreFirst(keys, ids, i, View().MissingIds(), limit);
    }

    method ListExhaustedWorkspaceCleanupJobs(limit: int) returns (listed: seq<CleanupJob>)
      requires Valid()
      ensures var keys := FirstIds(View().ExhaustedIds(), limit);
              |listed| == |keys| && forall i | 0 <= i < |keys| :: keys[i].id in cleanupJobs && listed[i] == cleanupJobs[keys[i].id]
    {
      FirstOfIsFirst(IdKeys(View().ExhaustedIds()), LimitOf(limit));
      if limit <= 0 {
        return [];
      }
      var ids := SortIds(cleanupJobs.Keys);
      listed := [];
      ghost var keys: seq<Key> := [];
      var i := 0;
      while i < |ids| && |listed| < limit
        invariant 0 <= i <= |ids| && |keys| == |listed| <= limit
        invariant forall n | 0 <= n < |keys| ::
                    keys[n].id in cleanupJobs && listed[n] == cleanupJobs[keys[n].id] && keys[n] == Key(0, keys[n].id)
        invariant Ascending(keys)
        invariant forall k :: k in keys <==> k in ids[..i] && View().IsExhausted(k.id)
      {
        assert ids[..i + 1] == ids[..i] + [ids[i]];
        assert ids[i] in ids;
        var job := cleanupJobs[ids[i].id];
        i := i + 1;
        if job.status != Failed || !job.Exhausted() {
          continue;
        }
        AppendKey(keys, ids, i - 1);
        listed := listed + [job];
        keys := keys + [ids[i - 1]];
      }
      ListedAreFirst(keys, ids, i, View().ExhaustedIds(), limit);
    }
  }

  /** The identifiers of a map, collected in any order and sorted. */
  method SortIds(ids: set<nat>) returns (sorted: seq<Key>)
    ensures Ascending(sorted)
    ensures forall k :: k in sorted <==> k in IdKeys(ids)
  {
    var collected: seq<Key> := [];
    var todo := ids;
    while todo != {}
      invariant todo <= ids
      invariant Distinct(collected)
      invariant forall k :: k in collected <==> k == Key(0, k.id) && k.id in ids && k.id !in todo
      decreases todo
    {
      var id :| id in todo;
      todo := todo - {id};
      collected := collected + [Key(0, id)];
    }
    SortSorts(collected);
    sorted := Sort(collected);
  }

  lemma AppendKey(keys: seq<Key>, ids: seq<Key>, i: nat)
    requires Ascending(ids) && i < |ids|
    requires Ascending(keys) && forall k | k in keys :: k in ids[..i]
    ensures Ascending(keys + [ids[i]])
  {
    AscendingJoin(keys, [ids[i]]);
  }

  lemma PrefixHas(ids: seq<Key>, n: nat, i: nat)
    requires n < |ids| && i <= |ids|
    ensures n < i ==> ids[n] in ids[..i]
  {
  }

  /** A filtered listing that stops at the limit is WHERE, ORDER BY and LIMIT. */
  lemma ListedAreFirst(keys: seq<Key>, ids: seq<Key>, i: nat, wanted: set<nat>, limit: nat)
    requires Ascending(ids) && Ascending(keys) && i <= |ids| && |keys| <= limit
    requires i == |ids| || |keys| == limit
    requires forall k | k in IdKeys(wanted) :: k in ids
    requires forall k :: k in keys <==> k in ids[..i] && k.id in wanted
    requires forall k | k in ids :: k == Key(0, k.id)
    ensures keys == FirstOf(IdKeys(wanted), limit)
  {
    forall k, l | k in keys && l in IdKeys(wanted) && l !in keys
      ensures Less(k, l)
    {
      var m :| 0 <= m < i && ids[m] == k;
      var n :| 0 <= n < |ids| && ids[n] == l;
      PrefixHas(ids, n, i);
    }
    assert ids[..|ids|] == ids;
    FirstOfIsUnique(keys, IdKeys(wanted), limit);
  }
}
