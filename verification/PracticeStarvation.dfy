/**
 No cleanup job starves: a due job is claimed after a number of sweeps fixed by the attempts
 that the jobs before it have left.
 */
module PracticeStarvation {
  import opened Ordering
  import opened PracticeStore
  import opened PracticeCalls
  import opened PracticeRuns
  import opened PracticeJobs

  /** The attempts that job `id` has left, if it has not succeeded and comes before `key` in (scheduled_at, id) order. */
  function AttemptsLeft(jobs: map<nat, CleanupJob>, key: Key, id: nat): nat {
    if id in jobs && jobs[id].status != Succeeded && Less(jobs[id].Key(), key) && jobs[id].attempts < MAX_ATTEMPTS
    then MAX_ATTEMPTS - jobs[id].attempts else 0
  }

  /** The attempts left before `key`, over all identifiers below `n`. */
  function Budget(jobs: map<nat, CleanupJob>, key: Key, n: nat): nat {
    if n == 0 then 0 else Budget(jobs, key, n - 1) + AttemptsLeft(jobs, key, n - 1)
  }

  ghost function BudgetBefore(st: Store, id: nat): nat
    requires id in st.jobs
  {
    Budget(st.jobs, st.jobs[id].Key(), st.nextJobId)
  }

  /** Waiting to be claimed and past its time, or left running until its lease has run out. */
  ghost predicate Overdue(s: State, id: nat) {
    && id in s.store.jobs
    && var job := s.store.jobs[id];
    && (job.status == Pending || job.status == Failed || (job.status == Running && job.updatedAt <= s.clock - LEASE_TIMEOUT))
    && job.attempts < MAX_ATTEMPTS
    && job.scheduledAt < s.clock
  }

  /** Every job that a sweep might have claimed before now is overdue. */
  lemma JobsDueBeforeAreOverdue(s: State, id: nat, before: int)
    requires Inv(s.store, s.clock) && id in s.store.jobs
    requires s.store.jobs[id].Due(before) && before < s.clock
    ensures Overdue(s, id)
  {
    assert JobOk(s.store.sessions, s.clock, s.store.jobs[id]);
  }

  // ----- Sums

  /** No attempts are won anywhere, and each member of `claimed` loses one. */
  ghost predicate Lowers(before: map<nat, CleanupJob>, after: map<nat, CleanupJob>, key: Key, claimed: set<nat>) {
    forall id: nat ::
      AttemptsLeft(after, key, id) + (if id in claimed then 1 else 0) <= AttemptsLeft(before, key, id)
  }

  function Below(ids: set<nat>, n: nat): set<nat> {
    set id | id in ids && id < n
  }

  lemma BelowGrows(ids: set<nat>, n: nat)
    ensures |Below(ids, n + 1)| == |Below(ids, n)| + (if n in ids then 1 else 0)
  {
    assert Below(ids, n + 1) == Below(ids, n) + (if n in ids then {n} else {});
  }

  lemma {:induction false} BudgetFalls(before: map<nat, CleanupJob>, after: map<nat, CleanupJob>, key: Key, claimed: set<nat>, n: nat)
    requires Lowers(before, after, key, claimed)
    ensures Budget(after, key, n) + |Below(claimed, n)| <= Budget(before, key, n)
  {
    if n == 0 {
      assert Below(claimed, n) == {};
    } else {
      BudgetFalls(before, after, key, claimed, n - 1);
      BelowGrows(claimed, n - 1);
      assert AttemptsLeft(after, key, n - 1) + (if n - 1 in claimed then 1 else 0) <= AttemptsLeft(before, key, n - 1);
    }
  }

  /** Identifiers that no job has yet add nothing. */
  lemma {:induction false} UnusedAddNothing(jobs: map<nat, CleanupJob>, key: Key, n: nat, more: nat)
    requires n <= more && forall id | id in jobs :: id < n
    ensures Budget(jobs, key, more) == Budget(jobs, key, n)
  {
    if n < more {
      UnusedAddNothing(jobs, key, n, more - 1);
    }
  }

  lemma {:induction false} CardinalityOfIds(keys: seq<Key>, ids: set<nat>)
    requires forall i, j | 0 <= i < j < |keys| :: keys[i].id != keys[j].id
    requires forall k | k in keys :: k.id in ids
    ensures |keys| <= |ids|
  {
    if keys != [] {
      var last := keys[|keys| - 1];
      assert last in keys;
      var others := keys[..|keys| - 1];
      forall k | k in others
        ensures k.id in ids - {last.id}
      {
      }
      CardinalityOfIds(others, ids - {last.id});
    }
  }

  // ----- What each call does to the budget

  /** A claimed job that came before `key` has used an attempt, or now comes after `key`. */
  lemma ClaimUsesAnAttempt(job: CleanupJob, now: int, o: Outcome, key: Key)
    requires job.Due(now) && key.at < now
    ensures var after := Settled(job.Claimed(now), now, o);
            Less(after.Key(), key) ==> Less(job.Key(), key) && after.attempts == job.attempts + 1
  {
  }

  lemma SettledLosesAnAttempt(before: map<nat, CleanupJob>, after: map<nat, CleanupJob>, key: Key, id: nat, now: int, o: Outcome)
    requires id in before && id in after
    requires before[id].Due(now) && key.at < now && Less(before[id].Key(), key)
    requires after[id] == Settled(before[id].Claimed(now), now, o)
    ensures AttemptsLeft(after, key, id) + 1 <= AttemptsLeft(before, key, id)
  {
    ClaimUsesAnAttempt(before[id], now, o, key);
  }

  ghost function ClaimedIds(st: Store, now: int, limit: nat): set<nat> {
    set id | id in st.jobs && st.Claims(id, now, limit)
  }

  /** A sweep that leaves a due job unclaimed claims `limit` jobs before it. */
  lemma PassedOverForALimit(st: Store, now: int, limit: nat, id: nat)
    requires st.Valid() && id in st.jobs && st.jobs[id].Due(now) && !st.Claims(id, now, limit)
    ensures |Below(ClaimedIds(st, now, limit), st.nextJobId)| >= limit
    ensures forall other | other in ClaimedIds(st, now, limit) :: st.jobs[other].Due(now) && Less(st.jobs[other].Key(), st.jobs[id].Key())
  {
    var keys, claimed := st.ClaimKeys(now, limit), ClaimedIds(st, now, limit);
    ClaimTakesTheFirstDue(st, now, limit, id);
    st.DueKeysNameJobs(now);
    FirstOfIsFirst(st.DueKeys(now), limit);
    forall i, j | 0 <= i < j < |keys|
      ensures keys[i].id != keys[j].id
    {
      assert keys[i] in keys && keys[j] in keys && Less(keys[i], keys[j]);
    }
    forall k | k in keys
      ensures k.id in Below(claimed, st.nextJobId)
    {
    }
    CardinalityOfIds(keys, Below(claimed, st.nextJobId));
    forall other | other in claimed
      ensures st.jobs[other].Due(now)
    {
      ClaimTakesTheFirstDue(st, now, limit, other);
    }
  }

  lemma SweepLowers(st: Store, clock: int, now: int, limit: int, outcomes: nat -> Outcome, id: nat)
    requires st.Valid() && clock <= now && Overdue(State(st, clock), id) && !st.Claims(id, now, EffectiveLimit(limit))
    ensures Lowers(st.jobs, Sweep(st, now, limit, outcomes).jobs, st.jobs[id].Key(), ClaimedIds(st, now, EffectiveLimit(limit)))
  {
    var after, n, key := Sweep(st, now, limit, outcomes).jobs, EffectiveLimit(limit), st.jobs[id].Key();
    SweepEffect(st, now, limit, outcomes);
    PassedOverForALimit(st, now, n, id);
    forall other: nat
      ensures AttemptsLeft(after, key, other) + (if other in ClaimedIds(st, now, n) then 1 else 0) <= AttemptsLeft(st.jobs, key, other)
    {
      if other in ClaimedIds(st, now, n) {
        SettledLosesAnAttempt(st.jobs, after, key, other, now, outcomes(other));
      }
    }
  }

  lemma SweepLowersBudget(st: Store, clock: int, now: int, limit: int, outcomes: nat -> Outcome, id: nat)
    requires st.Valid() && clock <= now && Overdue(State(st, clock), id) && !st.Claims(id, now, EffectiveLimit(limit))
    ensures var after := Sweep(st, now, limit, outcomes);
            && id in after.jobs && after.jobs[id] == st.jobs[id]
            && BudgetBefore(after, id) + EffectiveLimit(limit) <= BudgetBefore(st, id)
  {
    JobAfterSweep(st, now, limit, outcomes, id);
    SweepEffect(st, now, limit, outcomes);
    SweepLowers(st, clock, now, limit, outcomes, id);
    PassedOverForALimit(st, now, EffectiveLimit(limit), id);
    BudgetFalls(st.jobs, Sweep(st, now, limit, outcomes).jobs, st.jobs[id].Key(), ClaimedIds(st, now, EffectiveLimit(limit)), st.nextJobId);
  }

  /** New jobs come after every overdue one. */
  lemma ExtendingKeepsBudget(st: Store, after: Store, clock: int, id: nat)
    requires st.Valid() && after.Valid() && Extends(st, after, clock) && Overdue(State(st, clock), id)
    ensures id in after.jobs && BudgetBefore(after, id) == BudgetBefore(st, id)
  {
    var key := st.jobs[id].Key();
    SameBudget(st.jobs, after.jobs, key, after.nextJobId);
    UnusedAddNothing(st.jobs, key, st.nextJobId, after.nextJobId);
  }

  lemma {:induction false} SameBudget(before: map<nat, CleanupJob>, after: map<nat, CleanupJob>, key: Key, n: nat)
    requires forall id | id in before :: id in after && after[id] == before[id]
    requires forall id | id in after && id !in before :: after[id].scheduledAt > key.at
    ensures Budget(after, key, n) == Budget(before, key, n)
  {
    if n > 0 {
      SameBudget(before, after, key, n - 1);
    }
  }

  /** Requeueing moves a job that had no attempts left behind every overdue one. */
  lemma RequeueKeepsBudget(st: Store, clock: int, requeued: nat, now: int, write: Write, id: nat)
    requires st.Valid() && clock <= now && Overdue(State(st, clock), id)
    ensures var after := RequeueExhausted(st, requeued, now, write);
            && id in after.jobs && after.jobs[id] == st.jobs[id]
            && BudgetBefore(after, id) <= BudgetBefore(st, id)
  {
    var after, key := RequeueExhausted(st, requeued, now, write), st.jobs[id].Key();
    assert Lowers(st.jobs, after.jobs, key, {}) by {
      forall other: nat
        ensures AttemptsLeft(after.jobs, key, other) <= AttemptsLeft(st.jobs, key, other)
      {
      }
    }
    BudgetFalls(st.jobs, after.jobs, key, {}, st.nextJobId);
  }

  function LimitOfCall(call: Call): nat {
    if call.SweepJobs? then EffectiveLimit(call.limit) else 0
  }

  lemma OtherCallKeepsBudget(s: State, call: Call, id: nat)
    requires Inv(s.store, s.clock) && Enabled(s, call) && Overdue(s, id)
    requires !call.SweepJobs? && !call.RequeueJob?
    ensures id in Apply(s, call).store.jobs
    ensures BudgetBefore(Apply(s, call).store, id) == BudgetBefore(s.store, id)
  {
    CallKeepsInv(s, call);
    OtherCallsExtend(s, call);
    ExtendingKeepsBudget(s.store, Apply(s, call).store, s.clock, id);
  }

  /** A call that does not claim an overdue job lowers the budget before it by its limit; no call raises it. */
  lemma BudgetNeverRises(s: State, call: Call, id: nat)
    requires Inv(s.store, s.clock) && Enabled(s, call)
    requires Overdue(s, id) && !ClaimsIn(s, call, id)
    ensures Overdue(Apply(s, call), id)
    ensures BudgetBefore(Apply(s, call).store, id) + LimitOfCall(call) <= BudgetBefore(s.store, id)
  {
    JobAfterCall(s, call, id);
    if call.SweepJobs? {
      SweepLowersBudget(s.store, s.clock, call.now, call.limit, call.outcomes, id);
    } else if call.RequeueJob? {
      RequeueKeepsBudget(s.store, s.clock, call.id, call.now, call.write, id);
    } else {
      OtherCallKeepsBudget(s, call, id);
    }
  }

  // ----- Whole runs

  /** The claims that the run's sweeps have room for. */
  function Capacity(calls: seq<Call>): nat {
    if calls == [] then 0 else LimitOfCall(calls[0]) + Capacity(calls[1..])
  }

  /** An overdue job is claimed in every run whose sweeps have room for more claims than the jobs before it have attempts left. */
  lemma {:induction false} NoStarvation(s: State, calls: seq<Call>, id: nat)
    requires Inv(s.store, s.clock) && IsRun(s, calls)
    requires Overdue(s, id) && Capacity(calls) > BudgetBefore(s.store, id)
    ensures ClaimTimes(StepsOf(s, calls, id)) != []
    decreases |calls|
  {
    if !ClaimsIn(s, calls[0], id) {
      CallKeepsInv(s, calls[0]);
      BudgetNeverRises(s, calls[0], id);
      NoStarvation(Apply(s, calls[0]), calls[1..], id);
    }
  }

  function Sweeps(calls: seq<Call>): nat {
    if calls == [] then 0 else (if calls[0].SweepJobs? then 1 else 0) + Sweeps(calls[1..])
  }

  /** Every sweep claims up to `limit` jobs, or more. */
  ghost predicate SweepsClaim(calls: seq<Call>, limit: nat) {
    forall call | call in calls && call.SweepJobs? :: EffectiveLimit(call.limit) >= limit
  }

  lemma {:induction false} CapacityOfSweeps(calls: seq<Call>, limit: nat)
    requires SweepsClaim(calls, limit)
    ensures Capacity(calls) >= Sweeps(calls) * limit
  {
    if calls != [] {
      assert calls[0] in calls;
      CapacityOfSweeps(calls[1..], limit);
      assert (Sweeps(calls[1..]) + 1) * limit == Sweeps(calls[1..]) * limit + limit;
    }
  }

  /** With sweeps of at least `limit` jobs, an overdue job is claimed within budget / limit + 1 sweeps. */
  lemma ClaimedWithinSweeps(s: State, calls: seq<Call>, id: nat, limit: nat)
    requires Inv(s.store, s.clock) && IsRun(s, calls)
    requires Overdue(s, id) && limit > 0
    requires SweepsClaim(calls, limit)
    requires Sweeps(calls) >= BudgetBefore(s.store, id) / limit + 1
    ensures ClaimTimes(StepsOf(s, calls, id)) != []
  {
    var budget := BudgetBefore(s.store, id);
    CapacityOfSweeps(calls, limit);
    MoreThanQuotient(Sweeps(calls), budget, limit);
    NoStarvation(s, calls, id);
  }

  lemma MoreThanQuotient(n: nat, budget: nat, limit: nat)
    requires limit > 0 && n >= budget / limit + 1
    ensures n * limit > budget
  {
    assert budget == limit * (budget / limit) + budget % limit;
    assert n * limit >= (budget / limit + 1) * limit == limit * (budget / limit) + limit;
  }
}
