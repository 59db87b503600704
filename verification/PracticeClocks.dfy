/**
 Ended sessions with calls interleaved and a clock that does not go back: a thread that has not
 yet checked its copy can no longer orphan a session that has expired.
 */
module PracticeClocks {
  import opened PracticeStore
  import opened PracticeCalls
  import opened PracticeInterleaving
  import opened PracticeFinality

  /** The step reads the clock not before `clock`. */
  predicate InOrder(step: Step, clock: int) {
    match step
    case BeginCreate(_, _, _, _, _, _, now) => clock <= now
    case Check(_, now) => clock <= now
    case EndSession(_, now, later, _) => clock <= now <= later
    case ExpireBatch(_, now, _) => clock <= now
    case ListMissing(_, now, _) => clock <= now
    case ClaimBatch(_, now, _) => clock <= now
    case RequeueRead(_, now, _) => clock <= now
    case _ => true
  }

  /** When the step has read the clock for the last time. */
  function ClockAfter(step: Step, clock: int): int {
    match step
    case BeginCreate(_, _, _, _, _, _, now) => now
    case Check(_, now) => now
    case EndSession(_, _, later, _) => later
    case ExpireBatch(_, now, _) => now
    case ListMissing(_, now, _) => now
    case ClaimBatch(_, now, _) => now
    case RequeueRead(_, now, _) => now
    case _ => clock
  }

  predicate AllInOrder(steps: seq<Step>, clock: int)
    decreases |steps|
  {
    steps == [] || (InOrder(steps[0], clock) && AllInOrder(steps[1..], ClockAfter(steps[0], clock)))
  }

  function ClockAtEnd(steps: seq<Step>, clock: int): int
    decreases |steps|
  {
    if steps == [] then clock else ClockAtEnd(steps[1..], ClockAfter(steps[0], clock))
  }

  /** As `CanEndAs`, but an unchecked copy can be orphaned only as long as its time is not up. */
  predicate CanEndInTime(local: Local, id: nat, status: SessionStatus, clock: int) {
    CanEndAs(local, id, status) && (local.Checking? && status == Orphaned ==> clock < local.session.expiresAt)
  }

  ghost predicate AnyCanEndInTime(s: System, id: nat, status: SessionStatus, clock: int) {
    exists t :: t in s.threads && CanEndInTime(s.threads[t], id, status, clock)
  }

  // ----- When nobody can, the status is final

  lemma LocalStaysLate(s: System, step: Step, id: nat, status: SessionStatus, clock: int)
    requires s.store.Valid() && Enabled(s, step) && InOrder(step, clock) && HasEnded(s, id)
    requires status != Active && !AnyCanEndInTime(s, id, status, clock)
    ensures !CanEndInTime(LocalAfter(s, step), id, status, ClockAfter(step, clock))
  {
    assert step.t in s.threads ==> !CanEndInTime(s.threads[step.t], id, status, clock);
  }

  lemma OthersStayLate(threads: map<nat, Local>, t: nat, local: Local, id: nat, status: SessionStatus, clock: int, later: int)
    requires forall u | u in threads :: !CanEndInTime(threads[u], id, status, clock)
    requires !CanEndInTime(local, id, status, later) && clock <= later
    ensures forall u | u in Put(threads, t, local) :: !CanEndInTime(Put(threads, t, local)[u], id, status, later)
  {
  }

  lemma StepStaysLate(s: System, step: Step, id: nat, status: SessionStatus, clock: int)
    requires s.store.Valid() && Enabled(s, step) && InOrder(step, clock) && HasEnded(s, id)
    requires status != Active && !AnyCanEndInTime(s, id, status, clock)
    ensures !AnyCanEndInTime(Apply(s, step), id, status, ClockAfter(step, clock))
  {
    LocalStaysLate(s, step, id, status, clock);
    OthersStayLate(s.threads, step.t, LocalAfter(s, step), id, status, clock, ClockAfter(step, clock));
  }

  lemma StatusAfterInTime(s: System, step: Step, id: nat, status: SessionStatus, clock: int)
    requires Inv(s) && Enabled(s, step) && HasEnded(s, id)
    requires s.store.sessions[id].status == Opposite(status) && status != Active && !AnyCanEndInTime(s, id, status, clock)
    ensures HasEnded(Apply(s, step), id) && Apply(s, step).store.sessions[id].status == Opposite(status)
  {
    SessionAfter(s, step, id);
    if Ends(s, step, id) {
      EndingStatus(s, step.t);
      assert !CanEndInTime(s.threads[step.t], id, status, clock);
    }
  }

  lemma {:induction false} StatusIsFinalInTime(s: System, steps: seq<Step>, id: nat, status: SessionStatus, clock: int)
    requires Inv(s) && IsRun(s, steps) && AllInOrder(steps, clock) && HasEnded(s, id)
    requires s.store.sessions[id].status == Opposite(status) && status != Active && !AnyCanEndInTime(s, id, status, clock)
    ensures HasEnded(Run(s, steps), id) && Run(s, steps).store.sessions[id].status == Opposite(status)
    decreases |steps|
  {
    if steps != [] {
      StepKeepsInv(s, steps[0]);
      StatusAfterInTime(s, steps[0], id, status, clock);
      StepStaysLate(s, steps[0], id, status, clock);
      StatusIsFinalInTime(Apply(s, steps[0]), steps[1..], id, status, ClockAfter(steps[0], clock));
    }
  }

  // ----- When somebody can, it is not

  /** A time after everything that matters to the thread. */
  function LateEnough(local: Local, clock: int): int {
    if local.Checking? && local.session.expiresAt > clock then local.session.expiresAt else clock
  }

  lemma StepsToEndAreInOrder(local: Local, t: nat, id: nat, status: SessionStatus, clock: int)
    requires CanEndInTime(local, id, status, clock) && status != Active
    ensures AllInOrder(StepsToEnd(local, t, status, clock, LateEnough(local, clock)), clock)
  {
    var now := LateEnough(local, clock);
    var end := [EndSession(t, now, now, WRITTEN)] + [];
    EndIsInOrder(t, now, clock);
    match local
    case Using(_) => ThenInOrder(MissWorkspace(t), end, clock);
    case Checking(session) =>
      var check := Check(t, CheckAt(session, status, clock));
      EndIsInOrder(t, now, check.now);
      ThenInOrder(MissWorkspace(t), end, check.now);
      ThenInOrder(check, end, clock);
      ThenInOrder(check, [MissWorkspace(t)] + end, clock);
    case _ =>
  }

  lemma EndIsInOrder(t: nat, now: int, clock: int)
    requires clock <= now
    ensures AllInOrder([EndSession(t, now, now, WRITTEN)] + [], clock)
  {
    ThenInOrder(EndSession(t, now, now, WRITTEN), [], clock);
  }

  lemma ThenInOrder(step: Step, rest: seq<Step>, clock: int)
    requires InOrder(step, clock) && AllInOrder(rest, ClockAfter(step, clock))
    ensures AllInOrder([step] + rest, clock)
  {
    assert ([step] + rest)[1..] == rest;
  }

  ghost predicate ChangesStatusInOrder(s: System, steps: seq<Step>, id: nat, clock: int) {
    AllInOrder(steps, clock) && ChangesStatus(s, steps, id)
  }

  ghost predicate CanChangeStatus(s: System, id: nat, clock: int) {
    exists steps :: ChangesStatusInOrder(s, steps, id, clock)
  }

  /**
   With a clock that does not go back, some run turns an expired session orphaned, or an orphaned
   one expired, exactly when a thread can still end its active copy that way in time.
   */
  lemma EndedStatusCanChangeInTimeIff(s: System, id: nat, clock: int)
    requires Inv(s) && HasEnded(s, id)
    ensures CanChangeStatus(s, id, clock) <==> AnyCanEndInTime(s, id, Opposite(s.store.sessions[id].status), clock)
  {
    var other := Opposite(s.store.sessions[id].status);
    if AnyCanEndInTime(s, id, other, clock) {
      var t :| t in s.threads && CanEndInTime(s.threads[t], id, other, clock);
      var now := LateEnough(s.threads[t], clock);
      HoldersEnd(s, t, id, other, clock, now);
      StepsToEndAreInOrder(s.threads[t], t, id, other, clock);
      assert ChangesStatusInOrder(s, StepsToEnd(s.threads[t], t, other, clock, now), id, clock);
    } else {
      forall steps | IsRun(s, steps) && AllInOrder(steps, clock)
        ensures !ChangesStatusInOrder(s, steps, id, clock)
      {
        StatusIsFinalInTime(s, steps, id, other, clock);
      }
    }
  }

  // ----- Expired sessions are past their time

  /** The time of the copy is that of the stored session; if it is ending as expired, it is up. */
  predicate CopyInTime(sessions: map<nat, PracticeSession>, local: Local, clock: int) {
    local.Checking? || local.Using? || local.Ending? ==>
      && local.session.id in sessions && sessions[local.session.id].expiresAt == local.session.expiresAt
      && (local.Ending? && local.status == Expired ==> local.session.expiresAt <= clock)
  }

  predicate SessionInTime(session: PracticeSession, clock: int) {
    session.status == Expired ==> session.expiresAt <= clock
  }

  ghost predicate CopiesInTime(sessions: map<nat, PracticeSession>, threads: map<nat, Local>, clock: int) {
    forall t | t in threads :: CopyInTime(sessions, threads[t], clock)
  }

  ghost predicate SessionsInTime(sessions: map<nat, PracticeSession>, clock: int) {
    forall id | id in sessions :: SessionInTime(sessions[id], clock)
  }

  ghost predicate InTime(s: System, clock: int) {
    CopiesInTime(s.store.sessions, s.threads, clock) && SessionsInTime(s.store.sessions, clock)
  }

  ghost predicate SameTimes(before: map<nat, PracticeSession>, after: map<nat, PracticeSession>) {
    forall id | id in before :: id in after && after[id].expiresAt == before[id].expiresAt
  }

  lemma EndedInTime(s: System, step: Step, clock: int, id: nat)
    requires Inv(s) && Enabled(s, step) && InOrder(step, clock) && InTime(s, clock) && step.EndSession?
    requires id in s.store.sessions
    ensures id in StoreAfter(s, step).sessions
    ensures SessionInTime(StoreAfter(s, step).sessions[id], ClockAfter(step, clock))
    ensures StoreAfter(s, step).sessions[id].expiresAt == s.store.sessions[id].expiresAt
  {
    assert LocalOk(s.store.sessions, s.store.jobs, s.threads[step.t]);
    assert CopyInTime(s.store.sessions, s.threads[step.t], clock);
    assert SessionInTime(s.store.sessions[id], clock);
  }

  lemma CreatedInTime(s: System, step: Step, clock: int, id: nat)
    requires Inv(s) && Enabled(s, step) && InTime(s, clock) && step.FinishCreate?
    requires id in StoreAfter(s, step).sessions
    ensures SessionInTime(StoreAfter(s, step).sessions[id], clock)
    ensures id in s.store.sessions ==> StoreAfter(s, step).sessions[id].expiresAt == s.store.sessions[id].expiresAt
  {
    assert LocalOk(s.store.sessions, s.store.jobs, s.threads[step.t]);
    assert id in s.store.sessions ==> SessionInTime(s.store.sessions[id], clock);
  }

  lemma SessionsStayInTime(s: System, step: Step, clock: int, id: nat)
    requires Inv(s) && Enabled(s, step) && InOrder(step, clock) && InTime(s, clock)
    requires id in StoreAfter(s, step).sessions
    ensures SessionInTime(StoreAfter(s, step).sessions[id], ClockAfter(step, clock))
    ensures id in s.store.sessions ==> StoreAfter(s, step).sessions[id].expiresAt == s.store.sessions[id].expiresAt
  {
    if step.FinishCreate? {
      CreatedInTime(s, step, clock, id);
    } else if step.EndSession? {
      EndedInTime(s, step, clock, id);
    } else {
      assert SessionInTime(s.store.sessions[id], clock);
      if !step.ExpireBatch? {
        OtherStepsKeepSessions(s, step);
      }
    }
  }

  lemma LocalStaysInTime(s: System, step: Step, clock: int)
    requires Inv(s) && Enabled(s, step) && InOrder(step, clock) && InTime(s, clock)
    ensures CopyInTime(s.store.sessions, LocalAfter(s, step), ClockAfter(step, clock))
  {
    assert step.t in s.threads ==> CopyInTime(s.store.sessions, s.threads[step.t], clock);
  }

  lemma AllSessionsStayInTime(s: System, step: Step, clock: int)
    requires Inv(s) && Enabled(s, step) && InOrder(step, clock) && InTime(s, clock)
    ensures SessionsInTime(StoreAfter(s, step).sessions, ClockAfter(step, clock))
    ensures SameTimes(s.store.sessions, StoreAfter(s, step).sessions)
  {
    var after := StoreAfter(s, step).sessions;
    StepMovesOn(s, step);
    forall id | id in after
      ensures SessionInTime(after[id], ClockAfter(step, clock))
      ensures id in s.store.sessions ==> after[id].expiresAt == s.store.sessions[id].expiresAt
    {
      SessionsStayInTime(s, step, clock, id);
    }
  }

  lemma CopiesStayInTime(before: map<nat, PracticeSession>, after: map<nat, PracticeSession>, threads: map<nat, Local>,
                         t: nat, local: Local, clock: int, later: int)
    requires CopiesInTime(before, threads, clock) && CopyInTime(before, local, later) && clock <= later
    requires SameTimes(before, after)
    ensures CopiesInTime(after, Put(threads, t, local), later)
  {
    forall u | u in threads
      ensures CopyInTime(after, threads[u], later)
    {
      assert CopyInTime(before, threads[u], clock);
    }
  }

  lemma StepStaysInTime(s: System, step: Step, clock: int)
    requires Inv(s) && Enabled(s, step) && InOrder(step, clock) && InTime(s, clock)
    ensures InTime(Apply(s, step), ClockAfter(step, clock))
  {
    AllSessionsStayInTime(s, step, clock);
    LocalStaysInTime(s, step, clock);
    CopiesStayInTime(s.store.sessions, StoreAfter(s, step).sessions, s.threads, step.t, LocalAfter(s, step), clock, ClockAfter(step, clock));
  }

  lemma {:induction false} RunStaysInTime(s: System, steps: seq<Step>, clock: int)
    requires Inv(s) && IsRun(s, steps) && AllInOrder(steps, clock) && InTime(s, clock)
    ensures InTime(Run(s, steps), ClockAtEnd(steps, clock))
    decreases |steps|
  {
    if steps != [] {
      StepKeepsInv(s, steps[0]);
      StepStaysInTime(s, steps[0], clock);
      RunStaysInTime(Apply(s, steps[0]), steps[1..], ClockAfter(steps[0], clock));
    }
  }

  /** The thread has found the session in time and is using it, or is already ending it as orphaned. */
  predicate IsUsing(local: Local, id: nat) {
    (local.Using? || (local.Ending? && local.status == Orphaned)) && local.session.id == id
  }

  ghost predicate AnyIsUsing(s: System, id: nat) {
    exists t :: t in s.threads && IsUsing(s.threads[t], id)
  }

  lemma OnlyUsersAreInTime(s: System, clock: int, id: nat)
    requires InTime(s, clock) && id in s.store.sessions && s.store.sessions[id].status == Expired
    ensures AnyCanEndInTime(s, id, Orphaned, clock) <==> AnyIsUsing(s, id)
  {
    assert SessionInTime(s.store.sessions[id], clock);
    forall t | t in s.threads
      ensures CanEndInTime(s.threads[t], id, Orphaned, clock) <==> IsUsing(s.threads[t], id)
    {
      assert CopyInTime(s.store.sessions, s.threads[t], clock);
    }
  }

  lemma ReachableInTime(steps: seq<Step>, clock: int)
    requires IsRun(START, steps) && AllInOrder(steps, clock)
    ensures Inv(Run(START, steps)) && InTime(Run(START, steps), ClockAtEnd(steps, clock))
  {
    StartIsOk();
    RunKeepsInv(START, steps);
    RunStaysInTime(START, steps, clock);
  }

  lemma ExpiredInTimeCanTurnIff(s: System, clock: int, id: nat)
    requires Inv(s) && InTime(s, clock) && id in s.store.sessions && s.store.sessions[id].status == Expired
    ensures CanChangeStatus(s, id, clock) <==> AnyIsUsing(s, id)
  {
    OnlyUsersAreInTime(s, clock, id);
    EndedStatusCanChangeInTimeIff(s, id, clock);
  }

  /**
   In every state that a clock which does not go back leads to, an expired session can still turn
   orphaned exactly when a thread is using it, or ending it so. Those still checking are too late.
   */
  lemma ExpiredCanTurnOrphanedIff(steps: seq<Step>, clock: int, id: nat)
    requires IsRun(START, steps) && AllInOrder(steps, clock)
    requires id in Run(START, steps).store.sessions && Run(START, steps).store.sessions[id].status == Expired
    ensures CanChangeStatus(Run(START, steps), id, ClockAtEnd(steps, clock)) <==> AnyIsUsing(Run(START, steps), id)
  {
    ReachableInTime(steps, clock);
    ExpiredInTimeCanTurnIff(Run(START, steps), ClockAtEnd(steps, clock), id);
  }
}
