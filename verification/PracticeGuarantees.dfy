/** What every run of the practice service guarantees. */
module PracticeGuarantees {
  import opened PracticeStore
  import opened PracticeCalls
  import opened PracticeRuns
  import opened PracticeJobs

  // ----- The index of current sessions

  lemma IndexFindsNewest(st: Store, clock: int, userId: nat)
    requires Inv(st, clock)
    ensures FindsNewest(st, userId)
  {
    assert userId in st.current ==> IsNewest(st.sessions, userId, st.current[userId]);
  }

  lemma CurrentSessionIsNewest(clock: int, calls: seq<Call>, userId: nat)
    requires IsRun(Start(clock), calls)
    ensures FindsNewest(Run(Start(clock), calls).store, userId)
  {
    ReachableIsOk(clock, calls);
    IndexFindsNewest(Run(Start(clock), calls).store, Run(Start(clock), calls).clock, userId);
  }

  /**
   A creation leaves the index right exactly when no session of the user started later: with
   clocks read out of order, the index names the last session created and the query another.
   */
  lemma CreationKeepsIndexIff(st: Store, session: PracticeSession)
    requires st.Valid()
    ensures var after := st.CreateSession(session);
            && IsNewest(after.sessions, session.userId, after.current[session.userId])
            <==> forall id | id in st.sessions && st.sessions[id].userId == session.userId ::
                   st.sessions[id].startedAt <= session.startedAt
  {
    var after := st.CreateSession(session);
    forall id | id in st.sessions
      ensures id != st.nextId && after.sessions[id] == st.sessions[id] && st.sessions[id].id < st.nextId
    {
    }
    if IsNewest(after.sessions, session.userId, st.nextId) {
      forall id | id in st.sessions && st.sessions[id].userId == session.userId
        ensures st.sessions[id].startedAt <= session.startedAt
      {
        assert NoNewer(after.sessions[id], after.sessions[st.nextId]);
      }
    }
  }

  // ----- Ended sessions are final

  lemma EndKeepsOthers(st: Store, session: PracticeSession, status: SessionStatus, t: Readings, update: Write, job: Write, id: nat)
    requires id in st.sessions && id != session.id
    ensures var after := End(st, session, status, t, update, job).sessions; id in after && after[id] == st.sessions[id]
  {
  }

  lemma ExpireKeepsEnded(st: Store, clock: int, now: int, order: seq<nat>, writes: nat -> Write, id: nat)
    requires Inv(st, clock) && clock <= now && st.ListsStale(order, now)
    requires id in st.sessions && st.sessions[id].status != Active
    ensures var after := ExpireStale(st, now, order, writes).sessions; id in after && after[id] == st.sessions[id]
  {
    ClockMovesOn(st, clock, now);
    ExpireKeepsInv(st, now);
    EnqueueAllKeepsInv(st.Expire(now, now), now, order, writes);
  }

  lemma ReconcileKeepsSessions(st: Store, clock: int, now: int, limit: int, writes: nat -> Write)
    requires Inv(st, clock) && clock <= now
    ensures Reconcile(st, now, limit, writes).sessions == st.sessions
  {
    ClockMovesOn(st, clock, now);
    FirstIdsAre(st.MissingIds(), EffectiveLimit(limit));
    BackfillAllKeepsInv(st, now, FirstIds(st.MissingIds(), EffectiveLimit(limit)), writes);
  }

  lemma VisitKeepsEnded(st: Store, x: nat, t: Readings, update: Write, job: Write, id: nat)
    requires st.Valid() && id in st.sessions && st.sessions[id].status != Active
    ensures var after := Visit(st, x, t, update, job).sessions; id in after && after[id] == st.sessions[id]
    ensures var after := VisitMissing(st, x, t, update, job).sessions; id in after && after[id] == st.sessions[id]
  {
    if x in st.sessions && x != id {
      EndKeepsOthers(st, st.sessions[x], Expired, t, update, job, id);
      EndKeepsOthers(st, st.sessions[x], Orphaned, t, update, job, id);
    }
  }

  lemma OtherCallKeepsEnded(s: State, call: Call, id: nat)
    requires Inv(s.store, s.clock) && Enabled(s, call)
    requires call.CreateSession? || call.SweepJobs? || call.ReconcileJobs? || call.RequeueJob?
    requires id in s.store.sessions
    ensures var after := StoreAfter(s.store, call).sessions; id in after && after[id] == s.store.sessions[id]
  {
    if call.SweepJobs? {
      SweepEffect(s.store, call.now, call.limit, call.outcomes);
    } else if call.ReconcileJobs? {
      ReconcileKeepsSessions(s.store, s.clock, call.now, call.limit, call.writes);
    }
  }

  lemma CallKeepsEnded(s: State, call: Call, id: nat)
    requires Inv(s.store, s.clock) && Enabled(s, call)
    requires id in s.store.sessions && s.store.sessions[id].status != Active
    ensures var after := StoreAfter(s.store, call).sessions; id in after && after[id] == s.store.sessions[id]
  {
    match call
    case VisitSession(x, t, update, job) => VisitKeepsEnded(s.store, x, t, update, job, id);
    case VisitWithoutWorkspace(x, t, update, job) => VisitKeepsEnded(s.store, x, t, update, job, id);
    case ExpireSessions(now, order, writes) => ExpireKeepsEnded(s.store, s.clock, now, order, writes, id);
    case _ => OtherCallKeepsEnded(s, call, id);
  }

  /** With atomic calls an ended session is never rewritten at all. */
  lemma {:induction false} EndedSessionsAreFinal(s: State, calls: seq<Call>, id: nat)
    requires Inv(s.store, s.clock) && IsRun(s, calls)
    requires id in s.store.sessions && s.store.sessions[id].status != Active
    ensures var after := Run(s, calls).store.sessions; id in after && after[id] == s.store.sessions[id]
    decreases |calls|
  {
    if calls != [] {
      CallKeepsInv(s, calls[0]);
      CallKeepsEnded(s, calls[0], id);
      EndedSessionsAreFinal(Apply(s, calls[0]), calls[1..], id);
    }
  }

  ghost predicate Rewrites(s: State, calls: seq<Call>, id: nat) {
    && IsRun(s, calls) && id in s.store.sessions
    && !(id in Run(s, calls).store.sessions && Run(s, calls).store.sessions[id] == s.store.sessions[id])
  }

  lemma ActiveSessionsCanEnd(s: State, id: nat)
    requires Inv(s.store, s.clock)
    requires id in s.store.sessions && s.store.sessions[id].status == Active
    ensures exists calls :: Rewrites(s, calls, id)
  {
    var session := s.store.sessions[id];
    var now := if session.expiresAt > s.clock then session.expiresAt else s.clock;
    var visit := VisitSession(id, Readings(now, now, now), Write(false, 0), Write(false, 0));
    assert [visit][1..] == [] && IsRun(Apply(s, visit), []);
    assert IsRun(s, [visit]) && Run(s, [visit]) == Apply(s, visit);
    EndRewrites(s.store, id, now);
    assert Rewrites(s, [visit], id);
  }

  lemma EndRewrites(st: Store, id: nat, now: int)
    requires st.Valid() && id in st.sessions && st.sessions[id].status == Active
    ensures var after := End(st, st.sessions[id], Expired, Readings(now, now, now), Write(false, 0), Write(false, 0)).sessions;
            id in after && after[id].status == Expired
  {
  }

  /** Some run of atomic calls rewrites a session exactly when it is active. */
  lemma SessionCanChangeIff(s: State, id: nat)
    requires Inv(s.store, s.clock) && id in s.store.sessions
    ensures (exists calls :: Rewrites(s, calls, id)) <==> s.store.sessions[id].status == Active
  {
    if s.store.sessions[id].status == Active {
      ActiveSessionsCanEnd(s, id);
    } else {
      forall calls | IsRun(s, calls)
        ensures !Rewrites(s, calls, id)
      {
        EndedSessionsAreFinal(s, calls, id);
      }
    }
  }

  // ----- How long sessions last

  /** The session is for two hours, and has expired only if they are over. */
  predicate LastsTwoHours(session: PracticeSession) {
    && session.expiresAt == session.startedAt + 120 * MINUTE
    && (session.status == Expired ==> session.endedAt.Some? && session.endedAt.value >= session.startedAt + 120 * MINUTE)
    && (session.status == Active <==> session.endedAt.None?)
  }

  /** No run ends a session early, unless its workspace is gone. */
  lemma SessionsLastTwoHours(clock: int, calls: seq<Call>, id: nat)
    requires IsRun(Start(clock), calls)
    ensures var st := Run(Start(clock), calls).store; id in st.sessions ==> LastsTwoHours(st.sessions[id])
  {
    ReachableIsOk(clock, calls);
    var s := Run(Start(clock), calls);
    assert id in s.store.sessions ==> SessionOk(s.store.sessions[id], s.clock);
  }

  // ----- Deletes

  /** The workspace that the job names is that of its own session, which has ended, and of no other. */
  ghost predicate NamesDeadWorkspace(st: Store, job: CleanupJob) {
    && job.sessionId in st.sessions && st.sessions[job.sessionId].status == job.reason != Active
    && forall id | id in st.sessions :: st.sessions[id].runnerRef == job.workspaceId <==> id == job.sessionId
  }

  lemma JobNamesDeadWorkspace(st: Store, clock: int, id: nat)
    requires Inv(st, clock) && id in st.jobs
    ensures NamesDeadWorkspace(st, st.jobs[id])
  {
    assert JobOk(st.sessions, clock, st.jobs[id]);
  }

  lemma JobsNameDeadWorkspaces(clock: int, calls: seq<Call>, id: nat)
    requires IsRun(Start(clock), calls)
    ensures var st := Run(Start(clock), calls).store; id in st.jobs ==> NamesDeadWorkspace(st, st.jobs[id])
  {
    ReachableIsOk(clock, calls);
    if id in Run(Start(clock), calls).store.jobs {
      JobNamesDeadWorkspace(Run(Start(clock), calls).store, Run(Start(clock), calls).clock, id);
    }
  }

  /** The ten minutes after the end of the job's session, if that is orphaned, are over. */
  ghost predicate GraceIsOver(st: Store, job: CleanupJob, now: int) {
    && job.sessionId in st.sessions
    && var session := st.sessions[job.sessionId];
    && (session.status == Orphaned ==>
          session.endedAt.Some? && now >= session.endedAt.value + 10 * MINUTE)
  }

  lemma ClaimedJobsAreGraced(s: State, sweep: Call, id: nat)
    requires Inv(s.store, s.clock) && Enabled(s, sweep) && id in s.store.jobs && ClaimsIn(s, sweep, id)
    ensures GraceIsOver(s.store, s.store.jobs[id], sweep.now)
  {
    ClaimTakesTheFirstDue(s.store, sweep.now, EffectiveLimit(sweep.limit), id);
    assert JobOk(s.store.sessions, s.clock, s.store.jobs[id]);
    assert SessionOk(s.store.sessions[s.store.jobs[id].sessionId], s.clock);
    DueJobsAreGraced(s.store.sessions, s.clock, s.store.jobs[id], sweep.now);
  }

  /** No sweep ever claims the job of an orphaned session within ten minutes of the session's end. */
  lemma OrphansHaveTheirGrace(clock: int, calls: seq<Call>, sweep: Call, id: nat)
    requires IsRun(Start(clock), calls) && Enabled(Run(Start(clock), calls), sweep)
    requires ClaimsIn(Run(Start(clock), calls), sweep, id)
    ensures var st := Run(Start(clock), calls).store; id in st.jobs && GraceIsOver(st, st.jobs[id], sweep.now)
  {
    ReachableIsOk(clock, calls);
    ClaimedJobsAreGraced(Run(Start(clock), calls), sweep, id);
  }
}
