/**
 When an ended session can still change with calls interleaved: exactly when a thread holds a
 copy of it from the time when it was active.
 */
module PracticeFinality {
  import opened PracticeStore
  import opened PracticeCalls
  import opened PracticeInterleaving

  /** The thread holds an active copy of the session, from which it may still end it as `status`. */
  predicate CanEndAs(local: Local, id: nat, status: SessionStatus) {
    match local
    case Checking(session) => session.id == id && session.status == Active
    case Using(session) => session.id == id && status == Orphaned
    case Ending(session, ending) => session.id == id && ending == status
    case _ => false
  }

  ghost predicate AnyCanEndAs(s: System, id: nat, status: SessionStatus) {
    exists t :: t in s.threads && CanEndAs(s.threads[t], id, status)
  }

  function Opposite(status: SessionStatus): SessionStatus {
    if status == Expired then Orphaned else Expired
  }

  ghost predicate HasEnded(s: System, id: nat) {
    id in s.store.sessions && s.store.sessions[id].status != Active
  }

  // ----- One step

  /** The one step that writes an ended session. */
  ghost predicate Ends(s: System, step: Step, id: nat) {
    && step.EndSession? && !step.write.lost
    && step.t in s.threads && s.threads[step.t].Ending? && s.threads[step.t].session.id == id
  }

  lemma SessionAfter(s: System, step: Step, id: nat)
    requires s.store.Valid() && Enabled(s, step) && HasEnded(s, id)
    ensures id in StoreAfter(s, step).sessions
    ensures StoreAfter(s, step).sessions[id] ==
            if Ends(s, step, id) then Ended(s.threads[step.t].session, s.threads[step.t].status, step.now) else s.store.sessions[id]
  {
  }

  /** No step comes by an active copy of an ended session. */
  lemma LocalStaysHarmless(s: System, step: Step, id: nat, status: SessionStatus)
    requires s.store.Valid() && Enabled(s, step) && HasEnded(s, id)
    requires status != Active && !AnyCanEndAs(s, id, status)
    ensures !CanEndAs(LocalAfter(s, step), id, status)
  {
    assert step.t in s.threads ==> !CanEndAs(s.threads[step.t], id, status);
  }

  lemma StepStaysHarmless(s: System, step: Step, id: nat, status: SessionStatus)
    requires s.store.Valid() && Enabled(s, step) && HasEnded(s, id)
    requires status != Active && !AnyCanEndAs(s, id, status)
    ensures !AnyCanEndAs(Apply(s, step), id, status)
  {
    LocalStaysHarmless(s, step, id, status);
    OthersStayHarmless(s.threads, step.t, LocalAfter(s, step), id, status);
  }

  lemma OthersStayHarmless(threads: map<nat, Local>, t: nat, local: Local, id: nat, status: SessionStatus)
    requires forall u | u in threads :: !CanEndAs(threads[u], id, status)
    requires !CanEndAs(local, id, status)
    ensures forall u | u in Put(threads, t, local) :: !CanEndAs(Put(threads, t, local)[u], id, status)
  {
  }

  /** Threads end sessions as expired or as orphaned. */
  lemma EndingStatus(s: System, t: nat)
    requires Inv(s) && t in s.threads && s.threads[t].Ending?
    ensures s.threads[t].status != Active && s.threads[t].session.id in s.store.sessions
  {
    assert LocalOk(s.store.sessions, s.store.jobs, s.threads[t]);
  }

  lemma StatusAfter(s: System, step: Step, id: nat, status: SessionStatus)
    requires Inv(s) && Enabled(s, step) && HasEnded(s, id)
    requires s.store.sessions[id].status == Opposite(status) && status != Active && !AnyCanEndAs(s, id, status)
    ensures HasEnded(Apply(s, step), id) && Apply(s, step).store.sessions[id].status == Opposite(status)
  {
    SessionAfter(s, step, id);
    if Ends(s, step, id) {
      EndingStatus(s, step.t);
      assert !CanEndAs(s.threads[step.t], id, status);
    }
  }

  lemma RowAfter(s: System, step: Step, id: nat)
    requires Inv(s) && Enabled(s, step) && HasEnded(s, id)
    requires !AnyCanEndAs(s, id, Expired) && !AnyCanEndAs(s, id, Orphaned)
    ensures HasEnded(Apply(s, step), id) && Apply(s, step).store.sessions[id] == s.store.sessions[id]
  {
    SessionAfter(s, step, id);
    NobodyEnds(s, step, id);
  }

  lemma NobodyEnds(s: System, step: Step, id: nat)
    requires Inv(s) && !AnyCanEndAs(s, id, Expired) && !AnyCanEndAs(s, id, Orphaned)
    ensures !Ends(s, step, id)
  {
    if step.t in s.threads && s.threads[step.t].Ending? {
      EndingStatus(s, step.t);
      assert !CanEndAs(s.threads[step.t], id, Expired) && !CanEndAs(s.threads[step.t], id, Orphaned);
    }
  }

  // ----- Whole runs

  lemma {:induction false} StatusIsFinal(s: System, steps: seq<Step>, id: nat, status: SessionStatus)
    requires Inv(s) && IsRun(s, steps) && HasEnded(s, id)
    requires s.store.sessions[id].status == Opposite(status) && status != Active && !AnyCanEndAs(s, id, status)
    ensures HasEnded(Run(s, steps), id) && Run(s, steps).store.sessions[id].status == Opposite(status)
    decreases |steps|
  {
    if steps != [] {
      StepKeepsInv(s, steps[0]);
      StatusAfter(s, steps[0], id, status);
      StepStaysHarmless(s, steps[0], id, status);
      StatusIsFinal(Apply(s, steps[0]), steps[1..], id, status);
    }
  }

  lemma {:induction false} RowIsFinal(s: System, steps: seq<Step>, id: nat)
    requires Inv(s) && IsRun(s, steps) && HasEnded(s, id)
    requires !AnyCanEndAs(s, id, Expired) && !AnyCanEndAs(s, id, Orphaned)
    ensures HasEnded(Run(s, steps), id) && Run(s, steps).store.sessions[id] == s.store.sessions[id]
    decreases |steps|
  {
    if steps != [] {
      StepKeepsInv(s, steps[0]);
      RowAfter(s, steps[0], id);
      StepStaysHarmless(s, steps[0], id, Expired);
      StepStaysHarmless(s, steps[0], id, Orphaned);
      RowIsFinal(Apply(s, steps[0]), steps[1..], id);
    }
  }

  // ----- What a thread with an active copy can do

  /** When to check the copy so as to end it as `status`: not before `clock`, if that can be. */
  function CheckAt(copy: PracticeSession, status: SessionStatus, clock: int): int {
    if status == Orphaned then copy.expiresAt - 1 else if copy.expiresAt > clock then copy.expiresAt else clock
  }

  /** The steps by which thread `t` ends the session as `status`, from `clock` on, and at last when the clock reads `now`. */
  function StepsToEnd(local: Local, t: nat, status: SessionStatus, clock: int, now: int): seq<Step> {
    var end := [EndSession(t, now, now, WRITTEN)] + [];
    match local
    case Using(_) => [MissWorkspace(t)] + end
    case Checking(session) =>
      if status == Expired then [Check(t, CheckAt(session, status, clock))] + end
      else [Check(t, CheckAt(session, status, clock))] + ([MissWorkspace(t)] + end)
    case _ => end
  }

  /** After the steps, the session is stored as the thread has ended it. */
  ghost predicate IsEndedBy(s: System, steps: seq<Step>, id: nat, status: SessionStatus, now: int) {
    && IsRun(s, steps) && id in Run(s, steps).store.sessions
    && var session := Run(s, steps).store.sessions[id];
    && session.status == status && session.lastActivityAt == now
  }

  lemma EndingEnds(s: System, t: nat, copy: PracticeSession, status: SessionStatus, clock: int, now: int)
    requires IsAt(s, t, Ending(copy, status)) && copy.id in s.store.sessions
    ensures IsEndedBy(s, StepsToEnd(Ending(copy, status), t, status, clock, now), copy.id, status, now)
  {
    RunThen(s, EndSession(t, now, now, WRITTEN), []);
  }

  lemma UsingEnds(s: System, t: nat, copy: PracticeSession, clock: int, now: int)
    requires IsAt(s, t, Using(copy)) && copy.id in s.store.sessions
    ensures IsEndedBy(s, StepsToEnd(Using(copy), t, Orphaned, clock, now), copy.id, Orphaned, now)
  {
    var next := s.(threads := s.threads[t := Ending(copy, Orphaned)]);
    EndingEnds(next, t, copy, Orphaned, clock, now);
    assert Apply(s, MissWorkspace(t)) == next;
    RunThen(s, MissWorkspace(t), StepsToEnd(Ending(copy, Orphaned), t, Orphaned, clock, now));
  }

  lemma CheckingExpires(s: System, t: nat, copy: PracticeSession, clock: int, now: int)
    requires IsAt(s, t, Checking(copy)) && copy.status == Active && copy.id in s.store.sessions
    ensures IsEndedBy(s, StepsToEnd(Checking(copy), t, Expired, clock, now), copy.id, Expired, now)
  {
    var next, check := s.(threads := s.threads[t := Ending(copy, Expired)]), Check(t, CheckAt(copy, Expired, clock));
    EndingEnds(next, t, copy, Expired, clock, now);
    assert Apply(s, check) == next;
    RunThen(s, check, StepsToEnd(Ending(copy, Expired), t, Expired, clock, now));
  }

  lemma CheckingOrphans(s: System, t: nat, copy: PracticeSession, clock: int, now: int)
    requires IsAt(s, t, Checking(copy)) && copy.status == Active && copy.id in s.store.sessions
    ensures IsEndedBy(s, StepsToEnd(Checking(copy), t, Orphaned, clock, now), copy.id, Orphaned, now)
  {
    var next, check := s.(threads := s.threads[t := Using(copy)]), Check(t, CheckAt(copy, Orphaned, clock));
    UsingEnds(next, t, copy, clock, now);
    assert Apply(s, check) == next;
    RunThen(s, check, StepsToEnd(Using(copy), t, Orphaned, clock, now));
  }

  lemma HoldersEnd(s: System, t: nat, id: nat, status: SessionStatus, clock: int, now: int)
    requires Inv(s) && t in s.threads && CanEndAs(s.threads[t], id, status) && status != Active
    ensures IsEndedBy(s, StepsToEnd(s.threads[t], t, status, clock, now), id, status, now)
  {
    assert LocalOk(s.store.sessions, s.store.jobs, s.threads[t]);
    match s.threads[t]
    case Checking(copy) =>
      if status == Expired { CheckingExpires(s, t, copy, clock, now); } else { CheckingOrphans(s, t, copy, clock, now); }
    case Using(copy) => UsingEnds(s, t, copy, clock, now);
    case Ending(copy, _) => EndingEnds(s, t, copy, status, clock, now);
  }

  // ----- Exactly when an ended session can change

  ghost predicate ChangesStatus(s: System, steps: seq<Step>, id: nat) {
    && IsRun(s, steps) && id in s.store.sessions && id in Run(s, steps).store.sessions
    && Run(s, steps).store.sessions[id].status != s.store.sessions[id].status
  }

  ghost predicate ChangesRow(s: System, steps: seq<Step>, id: nat) {
    && IsRun(s, steps) && id in s.store.sessions && id in Run(s, steps).store.sessions
    && Run(s, steps).store.sessions[id] != s.store.sessions[id]
  }

  /** Some run turns an expired session orphaned, or an orphaned one expired, exactly when a thread holds an active copy from which it can end it that way. */
  lemma EndedStatusCanChangeIff(s: System, id: nat)
    requires Inv(s) && HasEnded(s, id)
    ensures (exists steps :: ChangesStatus(s, steps, id)) <==> AnyCanEndAs(s, id, Opposite(s.store.sessions[id].status))
  {
    var other := Opposite(s.store.sessions[id].status);
    if AnyCanEndAs(s, id, other) {
      var t :| t in s.threads && CanEndAs(s.threads[t], id, other);
      HoldersEnd(s, t, id, other, 0, 0);
      assert ChangesStatus(s, StepsToEnd(s.threads[t], t, other, 0, 0), id);
    } else {
      forall steps | IsRun(s, steps)
        ensures !ChangesStatus(s, steps, id)
      {
        StatusIsFinal(s, steps, id, other);
      }
    }
  }

  /** Some run changes anything at all about an ended session exactly when a thread holds an active copy of it. */
  lemma EndedSessionCanChangeIff(s: System, id: nat)
    requires Inv(s) && HasEnded(s, id)
    ensures (exists steps :: ChangesRow(s, steps, id)) <==> AnyCanEndAs(s, id, Expired) || AnyCanEndAs(s, id, Orphaned)
  {
    if AnyCanEndAs(s, id, Expired) {
      ActiveCopyChangesRow(s, id, Expired);
    } else if AnyCanEndAs(s, id, Orphaned) {
      ActiveCopyChangesRow(s, id, Orphaned);
    } else {
      forall steps | IsRun(s, steps)
        ensures !ChangesRow(s, steps, id)
      {
        RowIsFinal(s, steps, id);
      }
    }
  }

  lemma ActiveCopyChangesRow(s: System, id: nat, status: SessionStatus)
    requires Inv(s) && HasEnded(s, id) && status != Active && AnyCanEndAs(s, id, status)
    ensures exists steps :: ChangesRow(s, steps, id)
  {
    var now := s.store.sessions[id].lastActivityAt + 1;
    var t :| t in s.threads && CanEndAs(s.threads[t], id, status);
    HoldersEnd(s, t, id, status, 0, now);
    assert ChangesRow(s, StepsToEnd(s.threads[t], t, status, 0, now), id);
  }
}
