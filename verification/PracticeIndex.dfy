/**
 The index of current sessions with calls interleaved: it names the user's highest session, and
 that is the newest exactly when none of the user's sessions started later.
 */
module PracticeIndex {
  import opened PracticeStore
  import opened PracticeInterleaving
  import PracticeRuns

  ghost predicate IsHighest(sessions: map<nat, PracticeSession>, userId: nat, highest: nat) {
    && highest in sessions && sessions[highest].userId == userId
    && forall id | id in sessions && sessions[id].userId == userId :: id <= highest
  }

  ghost predicate NamesHighest(sessions: map<nat, PracticeSession>, current: map<nat, nat>) {
    && (forall userId | userId in current :: IsHighest(sessions, userId, current[userId]))
    && (forall id | id in sessions :: sessions[id].userId in current)
  }

  lemma RewritingKeepsHighest(before: map<nat, PracticeSession>, after: map<nat, PracticeSession>, current: map<nat, nat>)
    requires NamesHighest(before, current) && PracticeRuns.SameIdentities(before, after)
    ensures NamesHighest(after, current)
  {
    forall userId | userId in current
      ensures IsHighest(after, userId, current[userId])
    {
      assert IsHighest(before, userId, current[userId]);
    }
  }

  lemma CreatingKeepsHighest(st: Store, session: PracticeSession)
    requires st.Valid() && NamesHighest(st.sessions, st.current)
    ensures var after := st.CreateSession(session); NamesHighest(after.sessions, after.current)
  {
    var after := st.CreateSession(session);
    forall userId | userId in after.current
      ensures IsHighest(after.sessions, userId, after.current[userId])
    {
      assert userId in st.current ==> IsHighest(st.sessions, userId, st.current[userId]);
    }
  }

  /** Writing an ended copy back does not move the index, however old the copy. */
  lemma EndingKeepsHighest(st: Store, copy: PracticeSession, status: SessionStatus, now: int)
    requires NamesHighest(st.sessions, st.current) && CopyOf(st.sessions, copy) && status != Active
    ensures var after := st.UpdateSession(Ended(copy, status, now));
            after.current == st.current && NamesHighest(after.sessions, after.current)
  {
    var after := st.UpdateSession(Ended(copy, status, now));
    assert st.sessions[copy.id].userId in st.current;
    assert st.current[copy.userId := st.current[copy.userId]] == st.current;
    RewritingKeepsHighest(st.sessions, after.sessions, st.current);
  }

  lemma StepKeepsHighest(s: System, step: Step)
    requires Inv(s) && Enabled(s, step) && NamesHighest(s.store.sessions, s.store.current)
    ensures NamesHighest(StoreAfter(s, step).sessions, StoreAfter(s, step).current)
  {
    if step.FinishCreate? {
      CreatingKeepsHighest(s.store, s.threads[step.t].session);
    } else if step.EndSession? {
      assert LocalOk(s.store.sessions, s.store.jobs, s.threads[step.t]);
      EndingKeepsHighest(s.store, s.threads[step.t].session, s.threads[step.t].status, step.now);
    } else if step.ExpireBatch? {
      RewritingKeepsHighest(s.store.sessions, s.store.Expire(step.now, step.now).sessions, s.store.current);
    } else {
      OtherStepsKeepSessions(s, step);
    }
  }

  lemma {:induction false} RunKeepsHighest(s: System, steps: seq<Step>)
    requires Inv(s) && IsRun(s, steps) && NamesHighest(s.store.sessions, s.store.current)
    ensures NamesHighest(Run(s, steps).store.sessions, Run(s, steps).store.current)
    decreases |steps|
  {
    if steps != [] {
      StepKeepsInv(s, steps[0]);
      StepKeepsHighest(s, steps[0]);
      RunKeepsHighest(Apply(s, steps[0]), steps[1..]);
    }
  }

  /** No session of the user started after the one that the index names. */
  ghost predicate NoneStartedLater(st: Store, userId: nat) {
    userId in st.current && st.current[userId] in st.sessions ==>
      forall id | id in st.sessions && st.sessions[id].userId == userId ::
        st.sessions[id].startedAt <= st.sessions[st.current[userId]].startedAt
  }

  lemma HighestIsNewestIff(st: Store, userId: nat)
    requires st.Valid() && NamesHighest(st.sessions, st.current)
    ensures PracticeRuns.FindsNewest(st, userId) <==> NoneStartedLater(st, userId)
  {
    assert userId in st.current ==> IsHighest(st.sessions, userId, st.current[userId]);
    if PracticeRuns.FindsNewest(st, userId) && userId in st.current {
      var newest := st.sessions[st.current[userId]];
      forall id | id in st.sessions && st.sessions[id].userId == userId
        ensures st.sessions[id].startedAt <= newest.startedAt
      {
        assert PracticeRuns.NoNewer(st.sessions[id], newest);
      }
    }
  }

  /**
   However the calls interleave, the index names each user's last session created, and nothing
   only for a user without sessions. So it finds what the query finds exactly when no session of
   the user started after that one.
   */
  lemma IndexNamesTheLastCreated(steps: seq<Step>, userId: nat)
    requires IsRun(START, steps)
    ensures var st := Run(START, steps).store;
            && (if userId in st.current then IsHighest(st.sessions, userId, st.current[userId])
                else forall id | id in st.sessions :: st.sessions[id].userId != userId)
            && (PracticeRuns.FindsNewest(st, userId) <==> NoneStartedLater(st, userId))
  {
    StartIsOk();
    RunKeepsInv(START, steps);
    RunKeepsHighest(START, steps);
    HighestIsNewestIff(Run(START, steps).store, userId);
  }
}
