/** Every ended session gets its cleanup job: what reconciliation drains, and that nothing else fills it up. */
module PracticeDrain {
  import opened Common
  import opened Ordering
  import opened PracticeStore
  import opened PracticeCalls
  import opened PracticeRuns
  import opened PracticeJobs

  // ----- One reconciliation

  function IdsOf(keys: seq<Key>): set<nat> {
    set k | k in keys :: k.id
  }

  /** Backfilling a session takes that session, and no other, off the list. */
  lemma BackfillTakesOneOff(st: Store, id: nat, job: CleanupJob, wall: int)
    requires st.Valid() && st.IsMissing(id) && job.sessionId == id
    ensures st.Upsert(job, wall).Valid() && st.Upsert(job, wall).sessions == st.sessions
    ensures st.Upsert(job, wall).MissingIds() == st.MissingIds() - {id}
  {
    st.UpsertWritesOneRow(job, wall);
  }

  lemma {:induction false} BackfillTakesOff(st: Store, keys: seq<Key>, now: int, writes: nat -> Write)
    requires st.Valid() && Ascending(keys)
    requires forall k | k in keys :: k == Key(0, k.id) && st.IsMissing(k.id)
    requires NoneLost(keys, writes)
    ensures var after := BackfillAll(st, keys, now, writes);
            after.Valid() && after.sessions == st.sessions && after.MissingIds() == st.MissingIds() - IdsOf(keys)
    decreases |keys|
  {
    if keys != [] {
      assert keys[0] in keys;
      var session := st.sessions[keys[0].id];
      var job := NewJob(session.id, session.runnerRef, session.status, BackfillAt(session, now));
      var next := st.Upsert(job, writes(session.id).wall);
      BackfillTakesOneOff(st, session.id, job, writes(session.id).wall);
      LaterKeysDiffer(keys);
      StillMissing(st, next, session.id, keys[1..]);
      BackfillTakesOff(next, keys[1..], now, writes);
      assert IdsOf(keys) == {session.id} + IdsOf(keys[1..]) by {
        assert keys == [keys[0]] + keys[1..];
      }
    }
  }

  lemma StillMissing(st: Store, next: Store, id: nat, keys: seq<Key>)
    requires next.MissingIds() == st.MissingIds() - {id}
    requires forall k | k in keys :: k == Key(0, k.id) && st.IsMissing(k.id) && Less(Key(0, id), k)
    ensures forall k | k in keys :: k == Key(0, k.id) && next.IsMissing(k.id)
  {
    forall k | k in keys
      ensures next.IsMissing(k.id)
    {
      assert k.id in next.MissingIds();
    }
  }

  lemma {:induction false} IdsAreAsMany(keys: seq<Key>)
    requires Ascending(keys) && forall k | k in keys :: k.at == 0
    ensures |IdsOf(keys)| == |keys|
    decreases |keys|
  {
    if keys != [] {
      var last, others := keys[|keys| - 1], keys[..|keys| - 1];
      assert keys == others + [last];
      IdsAreAsMany(others);
      forall k | k in others
        ensures k.id != last.id
      {
        var i :| 0 <= i < |keys| - 1 && keys[i] == k;
        assert Less(keys[i], last) && last in keys;
      }
      assert IdsOf(keys) == IdsOf(others) + {last.id};
    }
  }

  /** The sessions that a reconciliation takes on. */
  ghost function FirstMissing(st: Store, limit: int): set<nat> {
    IdsOf(FirstIds(st.MissingIds(), EffectiveLimit(limit)))
  }

  lemma FirstMissingAreFirst(st: Store, limit: int)
    ensures FirstMissing(st, limit) <= st.MissingIds()
    ensures |FirstMissing(st, limit)| == Min(|st.MissingIds()|, EffectiveLimit(limit))
    ensures forall a, b | a in FirstMissing(st, limit) && b in st.MissingIds() - FirstMissing(st, limit) :: a < b
  {
    var missing, keys := st.MissingIds(), FirstIds(st.MissingIds(), EffectiveLimit(limit));
    FirstOfIsFirst(IdKeys(missing), EffectiveLimit(limit));
    IdKeysAreAsMany(missing);
    IdsAreAsMany(keys);
    forall a, b | a in FirstMissing(st, limit) && b in missing - FirstMissing(st, limit)
      ensures a < b
    {
      assert Key(0, a) in keys && Key(0, b) in IdKeys(missing) && Key(0, b) !in keys;
    }
  }

  /** A reconciliation that loses no write takes the first `limit` missing sessions off the list, or all of them. */
  lemma ReconcileShrinksTheList(st: Store, now: int, limit: int, writes: nat -> Write)
    requires st.Valid() && forall id | id in FirstMissing(st, limit) :: !writes(id).lost
    ensures var after := Reconcile(st, now, limit, writes);
            && after.sessions == st.sessions
            && after.MissingIds() == st.MissingIds() - FirstMissing(st, limit)
            && |after.MissingIds()| == |st.MissingIds()| - Min(|st.MissingIds()|, EffectiveLimit(limit))
  {
    MissingKeysAreMissing(st, EffectiveLimit(limit));
    FirstMissingAreFirst(st, limit);
    BackfillTakesOff(st, FirstIds(st.MissingIds(), EffectiveLimit(limit)), now, writes);
  }

  // ----- The other calls

  /** The call loses no write of a cleanup job. */
  ghost predicate WritesItsJobs(call: Call) {
    match call
    case VisitSession(_, _, _, job) => !job.lost
    case VisitWithoutWorkspace(_, _, _, job) => !job.lost
    case ExpireSessions(_, _, writes) => forall id: nat :: !writes(id).lost
    case ReconcileJobs(_, _, writes) => forall id: nat :: !writes(id).lost
    case _ => true
  }

  lemma EndLeavesNothingMissing(st: Store, id: nat, status: SessionStatus, t: Readings, update: Write, job: Write)
    requires st.Valid() && id in st.sessions && !job.lost
    ensures End(st, st.sessions[id], status, t, update, job).MissingIds() <= st.MissingIds()
  {
    if !update.lost {
      var ended := Ended(st.sessions[id], status, t.second);
      var after := st.UpdateSession(ended);
      var at := JobDueAt(status, t.third);
      st.UpdateKeepsValid(ended);
      after.UpsertWritesOneRow(NewJob(id, ended.runnerRef, status, at), job.wall);
    }
  }

  lemma {:induction false} EnqueueAllTakesOff(st: Store, order: seq<nat>, now: int, writes: nat -> Write)
    requires st.Valid() && forall id | id in order :: id in st.sessions && !writes(id).lost
    ensures forall id | id in EnqueueAll(st, order, now, writes).MissingIds() :: id in st.MissingIds() && id !in order
    decreases |order|
  {
    if order != [] {
      var session := st.sessions[order[0]];
      var job := NewJob(session.id, session.runnerRef, Expired, now);
      st.UpsertWritesOneRow(job, writes(order[0]).wall);
      EnqueueAllTakesOff(st.Upsert(job, writes(order[0]).wall), order[1..], now, writes);
      assert order == [order[0]] + order[1..];
    }
  }

  lemma ExpireLeavesNothingMissing(st: Store, now: int, order: seq<nat>, writes: nat -> Write)
    requires st.Valid() && st.ListsStale(order, now) && forall id: nat :: !writes(id).lost
    ensures ExpireStale(st, now, order, writes).MissingIds() <= st.MissingIds()
  {
    var expired := st.Expire(now, now);
    EnqueueAllTakesOff(expired, order, now, writes);
    forall id | id in ExpireStale(st, now, order, writes).MissingIds()
      ensures id in st.MissingIds()
    {
      assert id in expired.MissingIds() && id !in order;
      assert !st.Stale(id, now);
    }
  }

  lemma SweepLeavesTheList(st: Store, now: int, limit: int, outcomes: nat -> Outcome)
    requires st.Valid()
    ensures Sweep(st, now, limit, outcomes).MissingIds() == st.MissingIds()
  {
    SweepEffect(st, now, limit, outcomes);
  }

  function ReconcileLimit(call: Call): nat {
    if call.ReconcileJobs? then EffectiveLimit(call.limit) else 0
  }

  function Monus(a: nat, b: nat): nat {
    if a < b then 0 else a - b
  }

  lemma VisitLeavesNothingMissing(st: Store, id: nat, t: Readings, update: Write, job: Write)
    requires st.Valid() && !job.lost
    ensures Visit(st, id, t, update, job).MissingIds() <= st.MissingIds()
    ensures VisitMissing(st, id, t, update, job).MissingIds() <= st.MissingIds()
  {
    if id in st.sessions {
      EndLeavesNothingMissing(st, id, Expired, t, update, job);
      EndLeavesNothingMissing(st, id, Orphaned, t, update, job);
    }
  }

  lemma CallLeavesNothingMissing(s: State, call: Call)
    requires s.store.Valid() && Enabled(s, call) && WritesItsJobs(call)
    ensures Apply(s, call).store.MissingIds() <= s.store.MissingIds()
    ensures call.ReconcileJobs? ==>
              |Apply(s, call).store.MissingIds()| == Monus(|s.store.MissingIds()|, EffectiveLimit(call.limit))
  {
    match call
    case CreateSession(_, _, _, _, _, _, _) =>
    case VisitSession(id, t, update, job) => VisitLeavesNothingMissing(s.store, id, t, update, job);
    case VisitWithoutWorkspace(id, t, update, job) => VisitLeavesNothingMissing(s.store, id, t, update, job);
    case ExpireSessions(now, order, writes) => ExpireLeavesNothingMissing(s.store, now, order, writes);
    case SweepJobs(now, limit, outcomes) => SweepLeavesTheList(s.store, now, limit, outcomes);
    case ReconcileJobs(now, limit, writes) => ReconcileShrinksTheList(s.store, now, limit, writes);
    case RequeueJob(_, _, _) =>
  }

  lemma SubsetIsSmaller(a: set<nat>, b: set<nat>)
    requires a <= b
    ensures |a| <= |b|
  {
    assert b == a + (b - a);
  }

  lemma CallShrinksTheList(s: State, call: Call)
    requires s.store.Valid() && Enabled(s, call) && WritesItsJobs(call)
    ensures |Apply(s, call).store.MissingIds()| <= Monus(|s.store.MissingIds()|, ReconcileLimit(call))
  {
    CallLeavesNothingMissing(s, call);
    SubsetIsSmaller(Apply(s, call).store.MissingIds(), s.store.MissingIds());
  }

  // ----- Whole runs

  function Reconciled(calls: seq<Call>): nat {
    if calls == [] then 0 else ReconcileLimit(calls[0]) + Reconciled(calls[1..])
  }

  /** In a run that loses no job write, the list of missing sessions shrinks by the limit of each reconciliation. */
  lemma {:induction false} ListDrains(s: State, calls: seq<Call>)
    requires Inv(s.store, s.clock) && IsRun(s, calls)
    requires forall call | call in calls :: WritesItsJobs(call)
    ensures |Run(s, calls).store.MissingIds()| <= Monus(|s.store.MissingIds()|, Reconciled(calls))
    decreases |calls|
  {
    if calls != [] {
      assert calls[0] in calls;
      CallKeepsInv(s, calls[0]);
      CallShrinksTheList(s, calls[0]);
      ListDrains(Apply(s, calls[0]), calls[1..]);
    }
  }

  /** The session has one job, and only one. */
  ghost predicate HasItsJob(st: Store, id: nat) {
    id in st.jobOf && forall job | job in st.jobs :: st.jobs[job].sessionId == id <==> job == st.jobOf[id]
  }

  lemma NotMissingHasItsJob(st: Store, id: nat)
    requires st.Valid() && id !in st.MissingIds()
    ensures id in st.sessions && st.sessions[id].status != Active ==> HasItsJob(st, id)
  {
  }

  /** When the reconciliations have made up for the sessions that were missing a job, every ended session has its job. */
  lemma EveryEndedSessionHasItsJob(s: State, calls: seq<Call>, id: nat)
    requires Inv(s.store, s.clock) && IsRun(s, calls)
    requires forall call | call in calls :: WritesItsJobs(call)
    requires Reconciled(calls) >= |s.store.MissingIds()|
    ensures var st := Run(s, calls).store;
            id in st.sessions && st.sessions[id].status != Active ==> HasItsJob(st, id)
  {
    RunKeepsInv(s, calls);
    ListDrains(s, calls);
    NotMissingHasItsJob(Run(s, calls).store, id);
  }

  // ----- What the new jobs say

  /** The session has a job of its own that has not been tried and is due from `at` on. */
  ghost predicate HasNewJob(st: Store, session: PracticeSession, at: int) {
    && session.id in st.jobOf && st.jobOf[session.id] in st.jobs
    && var job := st.jobs[st.jobOf[session.id]];
    && job.sessionId == session.id && job.workspaceId == session.runnerRef && job.reason == session.status
    && job.status == Pending && job.attempts == 0 && job.lastError == ""
    && job.scheduledAt == at && DueFrom(job, at)
  }

  lemma NewJobIsDueFrom(id: nat, session: PracticeSession, reason: SessionStatus, at: int, wall: int)
    ensures DueFrom(NewJob(session.id, session.runnerRef, reason, at).(id := id, updatedAt := wall), at)
  {
  }

  lemma FirstUpsert(st: Store, session: PracticeSession, at: int, wall: int)
    requires st.Valid() && session.id !in st.jobOf
    ensures HasNewJob(st.Upsert(NewJob(session.id, session.runnerRef, session.status, at), wall), session, at)
  {
    NewJobIsDueFrom(st.nextJobId, session, session.status, at, wall);
  }

  lemma UpsertKeepsOtherJobs(st: Store, job: CleanupJob, wall: int, session: PracticeSession, at: int)
    requires st.Valid() && HasNewJob(st, session, at) && job.sessionId != session.id
    ensures HasNewJob(st.Upsert(job, wall), session, at)
  {
    st.UpsertWritesOneRow(job, wall);
  }

  /** A session that ends, with the writes made, has its job: due at once if it expired, and after ten minutes if it was orphaned. */
  lemma EndingEnqueues(st: Store, clock: int, id: nat, status: SessionStatus, t: Readings, update: Write, job: Write)
    requires Inv(st, clock) && id in st.sessions && st.sessions[id].status == Active && status != Active
    requires !update.lost && !job.lost
    ensures var after := End(st, st.sessions[id], status, t, update, job);
            && id in after.sessions && after.sessions[id].status == status && after.sessions[id].endedAt == Some(t.second)
            && HasNewJob(after, after.sessions[id], if status == Orphaned then t.third + 10 * MINUTE else t.third)
  {
    var ended := Ended(st.sessions[id], status, t.second);
    ActiveSessionsHaveNoJob(st, clock, id);
    assert SessionOk(st.sessions[id], clock);
    st.UpdateKeepsValid(ended);
    FirstUpsert(st.UpdateSession(ended), ended, JobDueAt(status, t.third), job.wall);
  }

  lemma {:induction false} EnqueueAllKeepsJob(st: Store, order: seq<nat>, now: int, writes: nat -> Write, session: PracticeSession, at: int)
    requires st.Valid() && HasNewJob(st, session, at) && session.id !in order
    requires forall id | id in order :: id in st.sessions
    ensures HasNewJob(EnqueueAll(st, order, now, writes), session, at)
    decreases |order|
  {
    if order != [] {
      var first := st.sessions[order[0]];
      if !writes(order[0]).lost {
        assert first.id == order[0] && order[0] in order;
        UpsertKeepsOtherJobs(st, NewJob(first.id, first.runnerRef, Expired, now), writes(order[0]).wall, session, at);
        st.UpsertWritesOneRow(NewJob(first.id, first.runnerRef, Expired, now), writes(order[0]).wall);
      }
      EnqueueAllKeepsJob(Enqueue(st, first, Expired, now, writes(order[0])), order[1..], now, writes, session, at);
    }
  }

  lemma OthersHaveNoJob(st: Store, order: seq<nat>, next: Store)
    requires order != [] && NoRepeats(order) && next.jobOf.Keys <= st.jobOf.Keys + {order[0]}
    requires forall id | id in order :: id !in st.jobOf
    ensures NoRepeats(order[1..]) && order[0] !in order[1..] && forall id | id in order[1..] :: id !in next.jobOf
  {
    forall id | id in order[1..]
      ensures id !in next.jobOf && id != order[0]
    {
      var i :| 0 < i < |order| && order[i] == id;
      assert order[0] != order[i] && order[i] in order;
    }
  }

  lemma {:induction false} EnqueueAllEnqueues(st: Store, order: seq<nat>, now: int, writes: nat -> Write, id: nat)
    requires st.Valid() && NoRepeats(order) && id in order && !writes(id).lost
    requires forall x | x in order :: x in st.sessions && x !in st.jobOf && st.sessions[x].status == Expired
    ensures id in st.sessions && HasNewJob(EnqueueAll(st, order, now, writes), st.sessions[id], now)
    decreases |order|
  {
    var first, next := st.sessions[order[0]], Enqueue(st, st.sessions[order[0]], Expired, now, writes(order[0]));
    assert order[0] in order;
    st.UpsertWritesOneRow(NewJob(first.id, first.runnerRef, Expired, now), writes(order[0]).wall);
    OthersHaveNoJob(st, order, next);
    if id == order[0] {
      FirstUpsert(st, first, now, writes(id).wall);
      EnqueueAllKeepsJob(next, order[1..], now, writes, first, now);
    } else {
      assert order == [order[0]] + order[1..];
      EnqueueAllEnqueues(next, order[1..], now, writes, id);
    }
  }

  /** Expiry leaves no active session whose time is up, and each that it expires has its job, due at once, if that write is made. */
  lemma ExpiryExpires(st: Store, clock: int, now: int, order: seq<nat>, writes: nat -> Write, id: nat)
    requires Inv(st, clock) && st.ListsStale(order, now) && id in st.sessions
    ensures var after := ExpireStale(st, now, order, writes);
            && id in after.sessions
            && !(after.sessions[id].status == Active && after.sessions[id].expiresAt <= now)
            && (st.sessions[id].status == Active && st.sessions[id].expiresAt <= now ==>
                  && after.sessions[id].status == Expired && after.sessions[id].endedAt == Some(now)
                  && (!writes(id).lost ==> HasNewJob(after, after.sessions[id], now)))
  {
    var expired := st.Expire(now, now);
    EnqueueAllKeepsSessions(expired, order, now, writes);
    assert SessionOk(st.sessions[id], clock);
    if id in order && !writes(id).lost {
      ExpiredHaveNoJob(st, clock, now, order);
      st.ExpireKeepsValid(now, now);
      EnqueueAllEnqueues(expired, order, now, writes, id);
    }
  }

  lemma ExpiredHaveNoJob(st: Store, clock: int, now: int, order: seq<nat>)
    requires Inv(st, clock) && st.ListsStale(order, now)
    ensures var expired := st.Expire(now, now);
            forall x | x in order :: x in expired.sessions && x !in expired.jobOf && expired.sessions[x].status == Expired
  {
    forall x | x in order
      ensures x !in st.jobOf
    {
      ActiveSessionsHaveNoJob(st, clock, x);
    }
  }

  lemma {:induction false} EnqueueAllKeepsSessions(st: Store, order: seq<nat>, now: int, writes: nat -> Write)
    ensures EnqueueAll(st, order, now, writes).sessions == st.sessions
    decreases |order|
  {
    if order != [] {
      EnqueueAllKeepsSessions(if order[0] in st.sessions then Enqueue(st, st.sessions[order[0]], Expired, now, writes(order[0])) else st,
                              order[1..], now, writes);
    }
  }

  /** A backfilled job is due at once, but for an orphan whose ten minutes are not over. */
  lemma BackfillEnqueues(st: Store, id: nat, now: int, wall: int)
    requires st.Valid() && st.IsMissing(id)
    ensures var session := st.sessions[id];
            var graced := if session.status == Orphaned && session.endedAt.Some? then session.endedAt.value + 10 * MINUTE else now;
            HasNewJob(st.Upsert(NewJob(session.id, session.runnerRef, session.status, BackfillAt(session, now)), wall), session,
                      if graced > now then graced else now)
  {
    FirstUpsert(st, st.sessions[id], BackfillAt(st.sessions[id], now), wall);
  }
}
