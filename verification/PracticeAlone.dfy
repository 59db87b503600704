/** A thread that is not interrupted makes the atomic call: the steps refine the calls. */
module PracticeAlone {
  import opened Ordering
  import opened PracticeStore
  import opened PracticeCalls
  import opened PracticeInterleaving

  // ----- Sweeping

  /** What a thread does with one claimed row after the delete. */
  function MarkSteps(t: nat, o: Outcome, rest: seq<Step>): seq<Step> {
    [Mark(t, o.error, o.mark)] + (if o.mark.lost then [RecoverNext(t, o.recovery)] + rest else rest)
  }

  function SweepSteps(t: nat, rows: seq<CleanupJob>, world: nat -> Outcome): seq<Step> {
    if rows == [] then []
    else [DeleteNext(t, world(rows[0].id).deleted)] + MarkSteps(t, world(rows[0].id), SweepSteps(t, rows[1..], world))
  }

  ghost function Settling(s: System, t: nat, rows: seq<CleanupJob>, now: int, o: Outcome): System
    requires rows != []
  {
    s.(store := Settle(s.store, rows[0], now, o), threads := Put(s.threads, t, Sweeping(rows[1..], now)))
  }

  lemma DeleteAlone(s: System, t: nat, rows: seq<CleanupJob>, now: int, deleted: bool, rest: seq<Step>)
    requires IsAt(s, t, Sweeping(rows, now)) && rows != []
    requires IsRun(s.(threads := s.threads[t := Marking(rows, now, deleted)], deletes := s.deletes + {rows[0].workspaceId}), rest)
    ensures IsRun(s, [DeleteNext(t, deleted)] + rest)
    ensures Run(s, [DeleteNext(t, deleted)] + rest) ==
            Run(s.(threads := s.threads[t := Marking(rows, now, deleted)], deletes := s.deletes + {rows[0].workspaceId}), rest)
  {
    assert Apply(s, DeleteNext(t, deleted)) ==
           s.(threads := s.threads[t := Marking(rows, now, deleted)], deletes := s.deletes + {rows[0].workspaceId});
    RunThen(s, DeleteNext(t, deleted), rest);
  }

  lemma MarkAlone(s: System, t: nat, rows: seq<CleanupJob>, now: int, o: Outcome, rest: seq<Step>)
    requires IsAt(s, t, Marking(rows, now, o.deleted)) && rows != [] && rows[0].id in s.store.jobs
    requires IsRun(Settling(s, t, rows, now, o), rest)
    ensures IsRun(s, MarkSteps(t, o, rest))
    ensures Run(s, MarkSteps(t, o, rest)) == Run(Settling(s, t, rows, now, o), rest)
  {
    var mark := Mark(t, o.error, o.mark);
    if o.mark.lost {
      RecoverAlone(s, t, rows, now, o);
      RunThen(Apply(s, mark), RecoverNext(t, o.recovery), rest);
      RunThen(s, mark, [RecoverNext(t, o.recovery)] + rest);
    } else {
      assert Apply(s, mark) == Settling(s, t, rows, now, o);
      RunThen(s, mark, rest);
    }
  }

  lemma RecoverAlone(s: System, t: nat, rows: seq<CleanupJob>, now: int, o: Outcome)
    requires IsAt(s, t, Marking(rows, now, o.deleted)) && rows != [] && rows[0].id in s.store.jobs && o.mark.lost
    ensures var a := Apply(s, Mark(t, o.error, o.mark));
            && a.store.Valid() && Enabled(a, RecoverNext(t, o.recovery))
            && Apply(a, RecoverNext(t, o.recovery)) == Settling(s, t, rows, now, o)
  {
    var a := Apply(s, Mark(t, o.error, o.mark));
    var at := if o.deleted then now else FailedUntil(rows[0], now);
    assert a == s.(threads := s.threads[t := Recovering(rows, now, at)]);
  }

  function Workspaces(rows: seq<CleanupJob>): set<string> {
    set row | row in rows :: row.workspaceId
  }

  lemma PutTwice(threads: map<nat, Local>, t: nat, first: Local, second: Local)
    ensures Put(threads[t := first], t, second) - {t} == threads - {t}
  {
  }

  lemma MoreWorkspaces(deletes: set<string>, rows: seq<CleanupJob>)
    requires rows != []
    ensures deletes + {rows[0].workspaceId} + Workspaces(rows[1..]) == deletes + Workspaces(rows)
  {
    assert rows == [rows[0]] + rows[1..];
  }

  lemma {:induction false} RowsAlone(s: System, t: nat, rows: seq<CleanupJob>, now: int, world: nat -> Outcome)
    requires s.store.Valid() && (if rows == [] then t !in s.threads else IsAt(s, t, Sweeping(rows, now)))
    requires forall i | 0 <= i < |rows| :: rows[i].id in s.store.jobs
    ensures IsRun(s, SweepSteps(t, rows, world))
    ensures var end := Run(s, SweepSteps(t, rows, world));
            && end.store == SettleAll(s.store, rows, now, world) && end.threads == s.threads - {t}
            && end.deletes == s.deletes + Workspaces(rows)
    decreases |rows|
  {
    if rows != [] {
      MoreWorkspaces(s.deletes, rows);
      var o := world(rows[0].id);
      var a := s.(threads := s.threads[t := Marking(rows, now, o.deleted)], deletes := s.deletes + {rows[0].workspaceId});
      var next := Settling(a, t, rows, now, o);
      SettleKeepsJobs(s.store, rows[0], now, o);
      PutTwice(s.threads, t, Marking(rows, now, o.deleted), Sweeping(rows[1..], now));
      RowsAlone(next, t, rows[1..], now, world);
      MarkAlone(a, t, rows, now, o, SweepSteps(t, rows[1..], world));
      DeleteAlone(s, t, rows, now, o.deleted, MarkSteps(t, o, SweepSteps(t, rows[1..], world)));
    }
  }

  /** A sweep whose steps are not interleaved with others' is the atomic sweep, and deletes the workspaces of the claimed rows. */
  lemma SweepAlone(s: System, t: nat, now: int, limit: int, world: nat -> Outcome)
    requires s.store.Valid() && t !in s.threads
    ensures var steps := [ClaimBatch(t, now, limit)] + SweepSteps(t, s.store.ClaimedRows(now, EffectiveLimit(limit)), world);
            && IsRun(s, steps)
            && Run(s, steps).store == Sweep(s.store, now, limit, world) && Run(s, steps).threads == s.threads
            && Run(s, steps).deletes == s.deletes + Workspaces(s.store.ClaimedRows(now, EffectiveLimit(limit)))
  {
    var n := EffectiveLimit(limit);
    var rows := s.store.ClaimedRows(now, n);
    var a := s.(store := s.store.Claim(now, n), threads := Put(s.threads, t, Sweeping(rows, now)));
    ClaimedRowsAreStored(s.store, now, n);
    assert a.threads - {t} == s.threads;
    RowsAlone(a, t, rows, now, world);
    ClaimAlone(s, t, now, limit, SweepSteps(t, rows, world));
  }

  lemma ClaimAlone(s: System, t: nat, now: int, limit: int, rest: seq<Step>)
    requires s.store.Valid() && t !in s.threads
    requires IsRun(s.(store := s.store.Claim(now, EffectiveLimit(limit)),
                      threads := Put(s.threads, t, Sweeping(s.store.ClaimedRows(now, EffectiveLimit(limit)), now))), rest)
    ensures IsRun(s, [ClaimBatch(t, now, limit)] + rest)
    ensures Run(s, [ClaimBatch(t, now, limit)] + rest) ==
            Run(s.(store := s.store.Claim(now, EffectiveLimit(limit)),
                   threads := Put(s.threads, t, Sweeping(s.store.ClaimedRows(now, EffectiveLimit(limit)), now))), rest)
  {
    ClaimedRowsAreStored(s.store, now, EffectiveLimit(limit));
    assert s.issued + {} == s.issued && s.deletes + {} == s.deletes;
    RunThen(s, ClaimBatch(t, now, limit), rest);
  }

  // ----- Enqueueing

  /** What a thread does with the jobs it has to enqueue: `world` says of each session's job whether its write is lost. */
  function EnqueueSteps(t: nat, jobs: seq<CleanupJob>, fallback: bool, world: nat -> Write): seq<Step>
    decreases |jobs|
  {
    if jobs == [] then []
    else
      var write := world(jobs[0].sessionId);
      var rest := EnqueueSteps(t, jobs[1..], fallback, world);
      [EnqueueNext(t, write)] + (if !write.lost then rest else if fallback then [FallBack(t)] + rest else [])
  }

  /** The workspaces that are deleted in place of jobs that are lost. */
  function LostWorkspaces(jobs: seq<CleanupJob>, fallback: bool, world: nat -> Write): set<string> {
    set job | job in jobs && fallback && world(job.sessionId).lost && job.workspaceId != "" :: job.workspaceId
  }

  /** The first job's share of the deletes. */
  function FirstLost(jobs: seq<CleanupJob>, fallback: bool, world: nat -> Write): set<string>
    requires jobs != []
  {
    if fallback && world(jobs[0].sessionId).lost && jobs[0].workspaceId != "" then {jobs[0].workspaceId} else {}
  }

  lemma MoreLostWorkspaces(deletes: set<string>, jobs: seq<CleanupJob>, fallback: bool, world: nat -> Write)
    requires jobs != []
    ensures deletes + FirstLost(jobs, fallback, world) + LostWorkspaces(jobs[1..], fallback, world) ==
            deletes + LostWorkspaces(jobs, fallback, world)
  {
    assert jobs == [jobs[0]] + jobs[1..];
  }

  lemma PutAndGone(threads: map<nat, Local>, t: nat, local: Local)
    ensures Put(threads, t, local) - {t} == threads - {t}
  {
  }

  function UpsertAll(st: Store, jobs: seq<CleanupJob>, fallback: bool, world: nat -> Write): Store
    decreases |jobs|
  {
    if jobs == [] then st
    else
      var write := world(jobs[0].sessionId);
      if !write.lost then UpsertAll(st.Upsert(jobs[0], write.wall), jobs[1..], fallback, world)
      else if fallback then UpsertAll(st, jobs[1..], fallback, world)
      else st
  }

  ghost predicate MayEnqueue(s: System, t: nat, jobs: seq<CleanupJob>, fallback: bool) {
    s.store.Valid() && if jobs == [] then t !in s.threads else t in s.threads && s.threads[t] == Enqueueing(jobs, fallback)
  }

  lemma WrittenAlone(s: System, t: nat, jobs: seq<CleanupJob>, fallback: bool, write: Write)
    requires MayEnqueue(s, t, jobs, fallback) && jobs != [] && !write.lost
    ensures Enabled(s, EnqueueNext(t, write))
    ensures var next := Apply(s, EnqueueNext(t, write));
            && next.store == s.store.Upsert(jobs[0], write.wall) && next.threads - {t} == s.threads - {t} && next.deletes == s.deletes
            && MayEnqueue(next, t, jobs[1..], fallback)
  {
    s.store.UpsertWritesOneRow(jobs[0], write.wall);
  }

  ghost function FallenBack(s: System, t: nat, jobs: seq<CleanupJob>): System
    requires jobs != []
  {
    s.(threads := Put(s.threads, t, Enqueueing(jobs[1..], true)),
       deletes := s.deletes + if jobs[0].workspaceId == "" then {} else {jobs[0].workspaceId})
  }

  lemma FallBackStep(s: System, t: nat, jobs: seq<CleanupJob>)
    requires jobs != [] && IsAt(s, t, FallingBack(jobs[0], jobs[1..]))
    ensures Enabled(s, FallBack(t)) && Apply(s, FallBack(t)) == FallenBack(s, t, jobs)
  {
    assert s.issued + {} == s.issued;
  }

  lemma FallenBackAlone(s: System, t: nat, jobs: seq<CleanupJob>, write: Write, rest: seq<Step>)
    requires MayEnqueue(s, t, jobs, true) && jobs != [] && write.lost && IsRun(FallenBack(s, t, jobs), rest)
    ensures var steps := [EnqueueNext(t, write)] + ([FallBack(t)] + rest);
            IsRun(s, steps) && Run(s, steps) == Run(FallenBack(s, t, jobs), rest)
  {
    var a := s.(threads := s.threads[t := FallingBack(jobs[0], jobs[1..])]);
    FallBackStep(a, t, jobs);
    assert FallenBack(a, t, jobs) == FallenBack(s, t, jobs);
    RunThen(a, FallBack(t), rest);
    LostStep(s, t, jobs, write);
    RunThen(s, EnqueueNext(t, write), [FallBack(t)] + rest);
  }

  lemma LostStep(s: System, t: nat, jobs: seq<CleanupJob>, write: Write)
    requires MayEnqueue(s, t, jobs, true) && jobs != [] && write.lost
    ensures Enabled(s, EnqueueNext(t, write))
    ensures Apply(s, EnqueueNext(t, write)) == s.(threads := s.threads[t := FallingBack(jobs[0], jobs[1..])])
  {
    assert s.issued + {} == s.issued && s.deletes + {} == s.deletes;
  }

  lemma {:induction false} JobsAlone(s: System, t: nat, jobs: seq<CleanupJob>, fallback: bool, world: nat -> Write)
    requires MayEnqueue(s, t, jobs, fallback)
    ensures IsRun(s, EnqueueSteps(t, jobs, fallback, world))
    ensures var end := Run(s, EnqueueSteps(t, jobs, fallback, world));
            && end.store == UpsertAll(s.store, jobs, fallback, world) && end.threads == s.threads - {t}
            && end.deletes == s.deletes + LostWorkspaces(jobs, fallback, world)
    decreases |jobs|
  {
    if jobs != [] {
      var write, rest := world(jobs[0].sessionId), EnqueueSteps(t, jobs[1..], fallback, world);
      MoreLostWorkspaces(s.deletes, jobs, fallback, world);
      if !write.lost {
        assert s.deletes + {} == s.deletes;
        WrittenAlone(s, t, jobs, fallback, write);
        JobsAlone(Apply(s, EnqueueNext(t, write)), t, jobs[1..], fallback, world);
        RunThen(s, EnqueueNext(t, write), rest);
      } else if fallback {
        var next := FallenBack(s, t, jobs);
        PutAndGone(s.threads, t, Enqueueing(jobs[1..], true));
        JobsAlone(next, t, jobs[1..], fallback, world);
        FallenBackAlone(s, t, jobs, write, rest);
      } else {
        GivenUpAlone(s, t, jobs, write);
        assert LostWorkspaces(jobs, fallback, world) == {};
      }
    }
  }

  lemma GivenUpAlone(s: System, t: nat, jobs: seq<CleanupJob>, write: Write)
    requires MayEnqueue(s, t, jobs, false) && jobs != [] && write.lost
    ensures var steps := [EnqueueNext(t, write)] + [];
            && IsRun(s, steps) && Run(s, steps).store == s.store && Run(s, steps).threads == s.threads - {t}
            && Run(s, steps).deletes == s.deletes
  {
    RunThen(s, EnqueueNext(t, write), []);
  }

  lemma {:induction false} UpsertAllIsEnqueueAll(st: Store, order: seq<nat>, now: int, world: nat -> Write)
    requires forall id | id in order :: id in st.sessions && st.sessions[id].id == id
    ensures UpsertAll(st, ExpiryJobs(st, order, now), true, world) == EnqueueAll(st, order, now, world)
    decreases |order|
  {
    if order != [] {
      var jobs := ExpiryJobs(st, order, now);
      var next := Enqueue(st, st.sessions[order[0]], Expired, now, world(order[0]));
      assert jobs[1..] == ExpiryJobs(next, order[1..], now);
      UpsertAllIsEnqueueAll(next, order[1..], now, world);
    }
  }

  /** Expiring sessions and enqueueing their jobs, with a delete in place of each lost job. */
  lemma ExpireAlone(s: System, t: nat, now: int, order: seq<nat>, world: nat -> Write)
    requires s.store.Valid() && t !in s.threads && s.store.ListsStale(order, now)
    ensures var steps := [ExpireBatch(t, now, order)] + EnqueueSteps(t, ExpiryJobs(s.store, order, now), true, world);
            && IsRun(s, steps)
            && Run(s, steps).store == ExpireStale(s.store, now, order, world) && Run(s, steps).threads == s.threads
            && Run(s, steps).deletes == s.deletes + LostWorkspaces(ExpiryJobs(s.store, order, now), true, world)
  {
    var jobs, a := ExpiryJobs(s.store, order, now), Apply(s, ExpireBatch(t, now, order));
    ExpireBegins(s, t, now, order);
    ExpiryJobsAfter(s.store, order, now);
    UpsertAllIsEnqueueAll(a.store, order, now, world);
    JobsAlone(a, t, jobs, true, world);
    RunThen(s, ExpireBatch(t, now, order), EnqueueSteps(t, jobs, true, world));
  }

  lemma ExpireBegins(s: System, t: nat, now: int, order: seq<nat>)
    requires s.store.Valid() && t !in s.threads && s.store.ListsStale(order, now)
    ensures var a := Apply(s, ExpireBatch(t, now, order));
            && a.store == s.store.Expire(now, now) && a.deletes == s.deletes
            && a.threads == Put(s.threads, t, Enqueueing(ExpiryJobs(s.store, order, now), true))
            && a.threads - {t} == s.threads
  {
  }

  lemma ExpiryJobsAfter(st: Store, order: seq<nat>, now: int)
    requires st.Valid() && st.ListsStale(order, now)
    ensures var after := st.Expire(now, now);
            && after.Valid() && ExpiryJobs(after, order, now) == ExpiryJobs(st, order, now)
            && forall id | id in order :: id in after.sessions && after.sessions[id].id == id
  {
  }

  function JobsFor(st: Store, keys: seq<Key>, now: int): seq<CleanupJob>
    requires forall k | k in keys :: k.id in st.sessions
  {
    seq(|keys|, i requires 0 <= i < |keys| =>
      assert keys[i] in keys;
      var session := st.sessions[keys[i].id];
      NewJob(session.id, session.runnerRef, session.status, BackfillAt(session, now)))
  }

  lemma {:induction false} UpsertAllIsBackfillAll(st: Store, keys: seq<Key>, now: int, world: nat -> Write)
    requires forall k | k in keys :: k.id in st.sessions && st.sessions[k.id].id == k.id
    ensures UpsertAll(st, JobsFor(st, keys, now), false, world) == BackfillAll(st, keys, now, world)
    decreases |keys|
  {
    if keys != [] {
      var jobs := JobsFor(st, keys, now);
      assert keys[0] in keys;
      if !world(keys[0].id).lost {
        var next := st.Upsert(jobs[0], world(keys[0].id).wall);
        assert jobs[1..] == JobsFor(next, keys[1..], now);
        UpsertAllIsBackfillAll(next, keys[1..], now, world);
      }
    }
  }

  lemma BackfillJobsAre(st: Store, now: int, limit: int)
    requires st.Valid()
    ensures var keys := FirstIds(st.MissingIds(), EffectiveLimit(limit));
            && (forall k | k in keys :: k.id in st.sessions && st.sessions[k.id].id == k.id)
            && BackfillJobs(st, now, limit) == JobsFor(st, keys, now)
  {
    FirstIdsAre(st.MissingIds(), EffectiveLimit(limit));
    var keys := FirstIds(st.MissingIds(), EffectiveLimit(limit));
    assert forall i | 0 <= i < |keys| :: keys[i] in keys;
  }

  /** Reconciling, up to the first lost write. */
  lemma ReconcileAlone(s: System, t: nat, now: int, limit: int, world: nat -> Write)
    requires s.store.Valid() && t !in s.threads
    ensures var steps := [ListMissing(t, now, limit)] + EnqueueSteps(t, BackfillJobs(s.store, now, limit), false, world);
            && IsRun(s, steps)
            && Run(s, steps).store == Reconcile(s.store, now, limit, world) && Run(s, steps).threads == s.threads
            && Run(s, steps).deletes == s.deletes
  {
    var jobs, a := BackfillJobs(s.store, now, limit), Apply(s, ListMissing(t, now, limit));
    ReconcileBegins(s, t, now, limit);
    BackfillJobsAre(s.store, now, limit);
    UpsertAllIsBackfillAll(s.store, FirstIds(s.store.MissingIds(), EffectiveLimit(limit)), now, world);
    JobsAlone(a, t, jobs, false, world);
    RunThen(s, ListMissing(t, now, limit), EnqueueSteps(t, jobs, false, world));
  }

  lemma ReconcileBegins(s: System, t: nat, now: int, limit: int)
    requires s.store.Valid() && t !in s.threads
    ensures var a := Apply(s, ListMissing(t, now, limit));
            && a.store == s.store && a.threads == Put(s.threads, t, Enqueueing(BackfillJobs(s.store, now, limit), false))
            && a.deletes == s.deletes
            && a.threads - {t} == s.threads
  {
  }

  // ----- Ending a session

  /** What a thread does to end the session of its copy and enqueue the job. */
  function EndSteps(t: nat, session: PracticeSession, status: SessionStatus, r: Readings, update: Write, job: Write): seq<Step> {
    [EndSession(t, r.second, r.third, update)] +
    (if update.lost then [] else EnqueueSteps(t, [NewJob(session.id, session.runnerRef, status, JobDueAt(status, r.third))], true, _ => job))
  }

  /** The thread has ended the session, and is gone; `deletes` were asked for on the way. */
  ghost predicate EndedAs(s: System, end: System, t: nat, store: Store, deletes: set<string>) {
    end.store == store && end.threads == s.threads - {t} && end.deletes == s.deletes + deletes
  }

  lemma LostEndAlone(s: System, t: nat, session: PracticeSession, status: SessionStatus, r: Readings, update: Write, job: Write)
    requires IsAt(s, t, Ending(session, status)) && update.lost
    ensures var steps := EndSteps(t, session, status, r, update, job);
            IsRun(s, steps) && EndedAs(s, Run(s, steps), t, s.store, {})
  {
    RunThen(s, EndSession(t, r.second, r.third, update), []);
  }

  lemma WrittenEndAlone(s: System, t: nat, session: PracticeSession, status: SessionStatus, r: Readings, update: Write, job: Write)
    requires IsAt(s, t, Ending(session, status)) && session.id in s.store.sessions && !update.lost
    ensures var steps := EndSteps(t, session, status, r, update, job);
            && IsRun(s, steps)
            && EndedAs(s, Run(s, steps), t, End(s.store, session, status, r, update, job),
                       if job.lost && session.runnerRef != "" then {session.runnerRef} else {})
  {
    var end, a := EndSession(t, r.second, r.third, update), Apply(s, EndSession(t, r.second, r.third, update));
    var jobs := [NewJob(session.id, session.runnerRef, status, JobDueAt(status, r.third))];
    s.store.UpdateKeepsValid(Ended(session, status, r.second));
    EndedThenEnqueues(s, t, session, status, r, update);
    JobsAlone(a, t, jobs, true, _ => job);
    OneUpsert(a.store, jobs[0], job);
    OneLostWorkspace(jobs[0], job);
    RunThen(s, end, EnqueueSteps(t, jobs, true, _ => job));
    ReplacedAndGone(s.threads, t, Enqueueing(jobs, true));
  }

  lemma ReplacedAndGone(threads: map<nat, Local>, t: nat, local: Local)
    ensures threads[t := local] - {t} == threads - {t}
  {
  }

  lemma EndAlone(s: System, t: nat, session: PracticeSession, status: SessionStatus, r: Readings, update: Write, job: Write)
    requires IsAt(s, t, Ending(session, status)) && session.id in s.store.sessions
    ensures var steps := EndSteps(t, session, status, r, update, job);
            && IsRun(s, steps)
            && EndedAs(s, Run(s, steps), t, End(s.store, session, status, r, update, job),
                       if !update.lost && job.lost && session.runnerRef != "" then {session.runnerRef} else {})
  {
    if update.lost {
      LostEndAlone(s, t, session, status, r, update, job);
    } else {
      WrittenEndAlone(s, t, session, status, r, update, job);
    }
  }

  lemma EndedThenEnqueues(s: System, t: nat, session: PracticeSession, status: SessionStatus, r: Readings, update: Write)
    requires IsAt(s, t, Ending(session, status)) && session.id in s.store.sessions && !update.lost
    ensures var a := Apply(s, EndSession(t, r.second, r.third, update));
            && a.store == s.store.UpdateSession(Ended(session, status, r.second)) && a.deletes == s.deletes
            && a.threads == s.threads[t := Enqueueing([NewJob(session.id, session.runnerRef, status, JobDueAt(status, r.third))], true)]
  {
  }

  lemma OneLostWorkspace(job: CleanupJob, write: Write)
    ensures LostWorkspaces([job], true, _ => write) == if write.lost && job.workspaceId != "" then {job.workspaceId} else {}
  {
  }

  lemma OneUpsert(st: Store, job: CleanupJob, write: Write)
    ensures UpsertAll(st, [job], true, _ => write) == if write.lost then st else st.Upsert(job, write.wall)
  {
    assert [job][1..] == [];
  }

  // ----- Visiting a session

  /** A step that only moves its thread. */
  lemma MovesOnly(s: System, step: Step, local: Local)
    requires s.store.Valid() && Enabled(s, step) && (step.Read? || step.Check? || step.MissWorkspace?)
    requires LocalAfter(s, step) == local && !local.Done?
    ensures Apply(s, step) == s.(threads := s.threads[step.t := local])
    ensures Apply(s, step).threads - {step.t} == s.threads - {step.t}
  {
    assert s.issued + {} == s.issued && s.deletes + {} == s.deletes;
  }

  /** What follows the check. */
  function CheckedSteps(t: nat, session: PracticeSession, missing: bool, r: Readings, update: Write, job: Write): seq<Step> {
    if session.status != Active then []
    else if session.expiresAt <= r.first then EndSteps(t, session, Expired, r, update, job)
    else if missing then [MissWorkspace(t)] + EndSteps(t, session, Orphaned, r, update, job)
    else [Leave(t)] + []
  }

  ghost predicate Visited(s: System, end: System, t: nat, id: nat, missing: bool, r: Readings, update: Write, job: Write)
    requires s.store.Valid()
  {
    && end.threads == s.threads - {t}
    && end.store == if missing then VisitMissing(s.store, id, r, update, job) else Visit(s.store, id, r, update, job)
  }

  lemma StaleAlone(s: System, t: nat, session: PracticeSession, missing: bool, r: Readings, update: Write, job: Write)
    requires IsAt(s, t, Checking(session)) && session.id in s.store.sessions && s.store.sessions[session.id] == session
    requires session.status == Active && session.expiresAt <= r.first
    ensures var steps := [Check(t, r.first)] + EndSteps(t, session, Expired, r, update, job);
            IsRun(s, steps) && Visited(s, Run(s, steps), t, session.id, missing, r, update, job)
  {
    var a := s.(threads := s.threads[t := Ending(session, Expired)]);
    EndAlone(a, t, session, Expired, r, update, job);
    MovesOnly(s, Check(t, r.first), Ending(session, Expired));
    RunThen(s, Check(t, r.first), EndSteps(t, session, Expired, r, update, job));
  }

  lemma FreshAlone(s: System, t: nat, session: PracticeSession, missing: bool, r: Readings, update: Write, job: Write)
    requires IsAt(s, t, Checking(session)) && session.id in s.store.sessions && s.store.sessions[session.id] == session
    requires session.status == Active && session.expiresAt > r.first
    ensures var steps := [Check(t, r.first)] + CheckedSteps(t, session, missing, r, update, job);
            IsRun(s, steps) && Visited(s, Run(s, steps), t, session.id, missing, r, update, job)
  {
    var a := s.(threads := s.threads[t := Using(session)]);
    UseAlone(a, t, session, missing, r, update, job);
    MovesOnly(s, Check(t, r.first), Using(session));
    RunThen(s, Check(t, r.first), CheckedSteps(t, session, missing, r, update, job));
  }

  lemma EndedAlone(s: System, t: nat, session: PracticeSession, missing: bool, r: Readings, update: Write, job: Write)
    requires IsAt(s, t, Checking(session)) && session.id in s.store.sessions && s.store.sessions[session.id] == session
    requires session.status != Active
    ensures var steps := [Check(t, r.first)] + [];
            IsRun(s, steps) && Visited(s, Run(s, steps), t, session.id, missing, r, update, job)
  {
    RunThen(s, Check(t, r.first), []);
  }

  lemma CheckAlone(s: System, t: nat, session: PracticeSession, missing: bool, r: Readings, update: Write, job: Write)
    requires IsAt(s, t, Checking(session)) && session.id in s.store.sessions && s.store.sessions[session.id] == session
    ensures var steps := [Check(t, r.first)] + CheckedSteps(t, session, missing, r, update, job);
            IsRun(s, steps) && Visited(s, Run(s, steps), t, session.id, missing, r, update, job)
  {
    if session.status != Active {
      EndedAlone(s, t, session, missing, r, update, job);
    } else if session.expiresAt <= r.first {
      StaleAlone(s, t, session, missing, r, update, job);
    } else {
      FreshAlone(s, t, session, missing, r, update, job);
    }
  }

  lemma UseAlone(s: System, t: nat, session: PracticeSession, missing: bool, r: Readings, update: Write, job: Write)
    requires IsAt(s, t, Using(session)) && session.id in s.store.sessions
    ensures var steps := if missing then [MissWorkspace(t)] + EndSteps(t, session, Orphaned, r, update, job) else [Leave(t)] + [];
            && IsRun(s, steps) && Run(s, steps).threads == s.threads - {t}
            && Run(s, steps).store == if missing then End(s.store, session, Orphaned, r, update, job) else s.store
  {
    if missing {
      var a := s.(threads := s.threads[t := Ending(session, Orphaned)]);
      EndAlone(a, t, session, Orphaned, r, update, job);
      MovesOnly(s, MissWorkspace(t), Ending(session, Orphaned));
      RunThen(s, MissWorkspace(t), EndSteps(t, session, Orphaned, r, update, job));
    } else {
      RunThen(s, Leave(t), []);
    }
  }

  /** A visit of the session; `missing` if it goes on to the workspace and finds it gone. */
  function VisitSteps(t: nat, session: PracticeSession, missing: bool, r: Readings, update: Write, job: Write): seq<Step> {
    [Read(t, session.id)] + ([Check(t, r.first)] + CheckedSteps(t, session, missing, r, update, job))
  }

  /** Looking at a session, and missing its workspace. */
  lemma VisitAlone(s: System, t: nat, id: nat, missing: bool, r: Readings, update: Write, job: Write)
    requires s.store.Valid() && t !in s.threads && id in s.store.sessions
    ensures var steps := VisitSteps(t, s.store.sessions[id], missing, r, update, job);
            && IsRun(s, steps) && Run(s, steps).threads == s.threads
            && Run(s, steps).store == if missing then VisitMissing(s.store, id, r, update, job) else Visit(s.store, id, r, update, job)
  {
    var session := s.store.sessions[id];
    var a := s.(threads := s.threads[t := Checking(session)]);
    CheckAlone(a, t, session, missing, r, update, job);
    MovesOnly(s, Read(t, id), Checking(session));
    RunThen(s, Read(t, id), [Check(t, r.first)] + CheckedSteps(t, session, missing, r, update, job));
  }

  // ----- Creating and requeueing

  lemma CreateAlone(s: System, t: nat, userId: nat, scenarioId: nat, templateId: nat, runnerRef: string, path: string, now: int, write: Write)
    requires s.store.Valid() && t !in s.threads && runnerRef !in s.issued
    ensures var steps := [BeginCreate(t, userId, scenarioId, templateId, runnerRef, path, now)] + ([FinishCreate(t, write)] + []);
            && IsRun(s, steps) && Run(s, steps).threads == s.threads
            && Run(s, steps).store == Create(s.store, NewSession(userId, scenarioId, templateId, runnerRef, path, now), write)
  {
    var begin := BeginCreate(t, userId, scenarioId, templateId, runnerRef, path, now);
    var a := Apply(s, begin);
    assert a.store == s.store && a.threads == s.threads[t := Creating(NewSession(userId, scenarioId, templateId, runnerRef, path, now))];
    RunThen(a, FinishCreate(t, write), []);
    RunThen(s, begin, [FinishCreate(t, write)] + []);
    assert a.threads - {t} == s.threads;
  }

  lemma RequeueAlone(s: System, t: nat, id: nat, now: int, write: Write)
    requires s.store.Valid() && t !in s.threads && s.store.IsExhausted(id)
    ensures var steps := [ReadExhausted(t, id)] + ([RequeueRead(t, now, write)] + []);
            && IsRun(s, steps) && Run(s, steps).threads == s.threads
            && Run(s, steps).store == RequeueExhausted(s.store, id, now, write)
  {
    var a := Apply(s, ReadExhausted(t, id));
    assert a.store == s.store && a.threads == s.threads[t := Requeueing(id)];
    RunThen(a, RequeueRead(t, now, write), []);
    RunThen(s, ReadExhausted(t, id), [RequeueRead(t, now, write)] + []);
    assert a.threads - {t} == s.threads;
  }
}
