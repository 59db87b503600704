/**
 Delayed workspace cleanup (services/runner/internal/engine/workspace_cleanup.go).

 `WorkspaceCleanupManager` holds the two maps behind the mutex; each of its methods is one
 critical section. The machine below runs any number of `Schedule` calls and timer goroutines
 against those critical sections, one step per section, per select, per delete and per report.
 */
module CleanupTimers {
  import opened Common
  import opened Text

  // ----- What the mutex protects

  datatype Registry = Registry(pending: map<string, nat>, failures: map<string, string>)
  {
    predicate IsPending(workspace: string, entry: nat) {
      workspace in pending && pending[workspace] == entry
    }

    function Existing(workspace: string): Option<nat> {
      if workspace in pending then Some(pending[workspace]) else None
    }

    function Arm(workspace: string, entry: nat): Registry {
      this.(pending := pending[workspace := entry])
    }

    function Disarm(workspace: string): Registry {
      this.(pending := pending - {workspace})
    }

    function Clear(workspace: string, entry: nat): Registry {
      if IsPending(workspace, entry) then Disarm(workspace) else this
    }

    function Record(workspace: string, error: Option<string>): Registry {
      match error
      case None => this.(failures := failures - {workspace})
      case Some(message) => this.(failures := failures[workspace := message])
    }
  }

  datatype Request = Request(workspace: string, path: string, deleteAfter: int)

  datatype ScheduleError = ContextDone | WorkspaceRequired | PathRequired | DeleteFailed(error: string)

  function Rejection(request: Request, contextDone: bool): Option<ScheduleError> {
    if contextDone then Some(ContextDone)
    else if Go.Trim(request.workspace) == "" then Some(WorkspaceRequired)
    else if Go.Trim(request.path) == "" then Some(PathRequired)
    else None
  }

  /** The error of a delete: that of releasing the terminal, or else that of removing the files. */
  function DeleteError(release: Option<string>, removal: Option<string>): Option<string> {
    if release.Some? then release else removal
  }

  class WorkspaceCleanupManager {
    var pending: map<string, nat>
    var failures: map<string, string>
    var cancelled: set<nat>  // the entries whose cancel function has been called
    var nextEntry: nat

    ghost function View(): Registry
      reads this
    {
      Registry(pending, failures)
    }

    constructor ()
      ensures View() == Registry(map[], map[]) && cancelled == {} && nextEntry == 0
    {
      pending := map[];
      failures := map[];
      cancelled := {};
      nextEntry := 0;
    }

    /**
     A delayed request is left to a goroutine under the new `entry`; an immediate one is carried
     out, here without other critical sections in between.
     */
    method Schedule(request: Request, contextDone: bool, release: Option<string>, removal: Option<string>)
      returns (entry: Option<nat>, error: Option<ScheduleError>)
      modifies this
      ensures Rejection(request, contextDone).Some? ==>
                && entry == None && error == Rejection(request, contextDone)
                && View() == old(View()) && cancelled == old(cancelled) && nextEntry == old(nextEntry)
      ensures Rejection(request, contextDone).None? ==>
                && entry == Some(old(nextEntry)) && nextEntry == old(nextEntry) + 1
                && cancelled == (match old(View()).Existing(request.workspace)
                                 case None => old(cancelled)
                                 case Some(victim) => old(cancelled) + {victim})
                && if request.deleteAfter > 0 then
                     View() == old(View()).Arm(request.workspace, old(nextEntry)) && error == None
                   else
                     var failure := DeleteError(release, removal);
                     && View() == old(View()).Disarm(request.workspace).Record(request.workspace, failure)
                     && error == if failure.None? then None else Some(DeleteFailed(failure.value))
    {
      if contextDone {
        return None, Some(ContextDone);
      }
      if Go.Trim(request.workspace) == "" {
        return None, Some(WorkspaceRequired);
      }
      if Go.Trim(request.path) == "" {
        return None, Some(PathRequired);
      }
      var accepted := nextEntry;
      nextEntry := nextEntry + 1;
      if request.deleteAfter <= 0 {
        CancelPending(request.workspace);
        var failure := if release.Some? then release else removal;
        RecordCleanupResult(request.workspace, failure);
        return Some(accepted), if failure.None? then None else Some(DeleteFailed(failure.value));
      }
      if request.workspace in pending {
        cancelled := cancelled + {pending[request.workspace]};
      }
      pending := pending[request.workspace := accepted];
      return Some(accepted), None;
    }

    method CancelPending(workspace: string)
      modifies this
      ensures View() == old(View()).Disarm(workspace) && nextEntry == old(nextEntry)
      ensures cancelled == match old(View()).Existing(workspace)
                           case None => old(cancelled)
                           case Some(entry) => old(cancelled) + {entry}
    {
      var entry := if workspace in pending then Some(pending[workspace]) else None;
      pending := pending - {workspace};
      if entry.Some? {
        cancelled := cancelled + {entry.value};
      }
    }

    method BeginPendingDelete(workspace: string, entry: nat) returns (begun: bool)
      modifies this
      ensures begun == old(View()).IsPending(workspace, entry)
      ensures View() == old(View()).Clear(workspace, entry)
      ensures cancelled == old(cancelled) && nextEntry == old(nextEntry)
    {
      if workspace !in pending || pending[workspace] != entry {
        return false;
      }
      pending := pending - {workspace};
      return true;
    }

    method ClearPending(workspace: string, entry: nat)
      modifies this
      ensures View() == old(View()).Clear(workspace, entry)
      ensures cancelled == old(cancelled) && nextEntry == old(nextEntry)
    {
      if workspace in pending && pending[workspace] == entry {
        pending := pending - {workspace};
      }
    }

    method RecordCleanupResult(workspace: string, error: Option<string>)
      modifies this
      ensures View() == old(View()).Record(workspace, error)
      ensures cancelled == old(cancelled) && nextEntry == old(nextEntry)
    {
      if error.None? {
        failures := failures - {workspace};
        return;
      }
      failures := failures[workspace := error.value];
    }
  }

  // ----- The machine

  datatype Report = Superseded | Finished(error: Option<string>)

  datatype Pc =
    | Armed                             // in the select
    | TimerFired                        // the timer was taken; beginPendingDelete is next
    | CancelSeen                        // the cancellation was taken; clearPending is next
    | Cancelling(victim: Option<nat>)   // an immediate request between the lock and cancel()
    | Releasing                         // terminal.Release is next
    | Removing                          // remove is next
    | Recording(error: Option<string>)
    | Reporting(report: Report)
    | Done(report: Report)

  /** One accepted request; `superseded` and the counters are history. */
  datatype Ticket = Ticket(
    workspace: string, delayed: bool, pc: Pc, cancelled: bool, superseded: bool, removals: nat, completions: nat)

  datatype State = State(tickets: seq<Ticket>, registry: Registry)
  {
    function With(i: nat, ticket: Ticket): State
      requires i < |tickets|
    {
      this.(tickets := tickets[i := ticket])
    }

    function Supersede(entry: Option<nat>): State
      requires entry.Some? ==> entry.value < |tickets|
    {
      match entry
      case None => this
      case Some(i) => With(i, tickets[i].(superseded := true))
    }

    function Cancel(entry: Option<nat>): State
      requires entry.Some? ==> entry.value < |tickets|
    {
      match entry
      case None => this
      case Some(i) => With(i, tickets[i].(cancelled := true))
    }

    function Accept(ticket: Ticket): State {
      this.(tickets := tickets + [ticket])
    }
  }

  const START := State([], Registry(map[], map[]))

  function NewTicket(workspace: string, delayed: bool, pc: Pc): Ticket {
    Ticket(workspace, delayed, pc, false, false, 0, 0)
  }

  datatype Step =
    | ScheduleDelayed(workspace: string)
    | ScheduleNow(workspace: string)
    | CallCancel(i: nat)
    | TakeTimer(i: nat)
    | TakeCancel(i: nat)
    | BeginDelete(i: nat)
    | ClearEntry(i: nat)
    | Release(i: nat, error: Option<string>)
    | Remove(i: nat, error: Option<string>)
    | RecordResult(i: nat)
    | Complete(i: nat)

  predicate Enabled(s: State, step: Step) {
    match step
    case ScheduleDelayed(w) => w in s.registry.pending ==> s.registry.pending[w] < |s.tickets|
    case ScheduleNow(w) => w in s.registry.pending ==> s.registry.pending[w] < |s.tickets|
    case CallCancel(i) =>
      && i < |s.tickets| && s.tickets[i].pc.Cancelling?
      && (s.tickets[i].pc.victim.Some? ==> s.tickets[i].pc.victim.value < |s.tickets|)
    case TakeTimer(i) => i < |s.tickets| && s.tickets[i].pc.Armed?
    case TakeCancel(i) => i < |s.tickets| && s.tickets[i].pc.Armed? && s.tickets[i].cancelled
    case BeginDelete(i) => i < |s.tickets| && s.tickets[i].pc.TimerFired?
    case ClearEntry(i) => i < |s.tickets| && s.tickets[i].pc.CancelSeen?
    case Release(i, _) => i < |s.tickets| && s.tickets[i].pc.Releasing?
    case Remove(i, _) => i < |s.tickets| && s.tickets[i].pc.Removing?
    case RecordResult(i) => i < |s.tickets| && s.tickets[i].pc.Recording?
    case Complete(i) => i < |s.tickets| && s.tickets[i].pc.Reporting?
  }

  function Apply(s: State, step: Step): State
    requires Enabled(s, step)
  {
    match step
    case ScheduleDelayed(w) =>
      // The existing entry is cancelled under the lock.
      var existing := s.registry.Existing(w);
      s.(registry := s.registry.Arm(w, |s.tickets|))
       .Supersede(existing).Cancel(existing)
       .Accept(NewTicket(w, true, Armed))
    case ScheduleNow(w) =>
      // The existing entry is taken out under the lock and cancelled later.
      var existing := s.registry.Existing(w);
      s.(registry := s.registry.Disarm(w))
       .Supersede(existing)
       .Accept(NewTicket(w, false, Cancelling(existing)))
    case CallCancel(i) =>
      var cancelled := s.Cancel(s.tickets[i].pc.victim);
      cancelled.With(i, cancelled.tickets[i].(pc := Releasing))
    case TakeTimer(i) => s.With(i, s.tickets[i].(pc := TimerFired))
    case TakeCancel(i) => s.With(i, s.tickets[i].(pc := CancelSeen))
    case BeginDelete(i) =>
      var t := s.tickets[i];
      var next := if s.registry.IsPending(t.workspace, i) then Releasing else Reporting(Superseded);
      s.With(i, t.(pc := next)).(registry := s.registry.Clear(t.workspace, i))
    case ClearEntry(i) =>
      var t := s.tickets[i];
      s.With(i, t.(pc := Reporting(Superseded))).(registry := s.registry.Clear(t.workspace, i))
    case Release(i, error) =>
      s.With(i, s.tickets[i].(pc := if error.Some? then Recording(error) else Removing))
    case Remove(i, error) =>
      var t := s.tickets[i];
      s.With(i, t.(pc := Recording(error), removals := t.removals + 1))
    case RecordResult(i) =>
      var t := s.tickets[i];
      s.With(i, t.(pc := Reporting(Finished(t.pc.error)))).(registry := s.registry.Record(t.workspace, t.pc.error))
    case Complete(i) =>
      var t := s.tickets[i];
      s.With(i, t.(pc := Done(t.pc.report), completions := t.completions + 1))
  }

  predicate IsRun(s: State, steps: seq<Step>)
    decreases |steps|
  {
    steps == [] || (Enabled(s, steps[0]) && IsRun(Apply(s, steps[0]), steps[1..]))
  }

  function Run(s: State, steps: seq<Step>): State
    requires IsRun(s, steps)
    decreases |steps|
  {
    if steps == [] then s else Run(Apply(s, steps[0]), steps[1..])
  }

  // ----- The invariant

  predicate Waiting(pc: Pc) {
    pc.Armed? || pc.TimerFired?
  }

  predicate ReportOf(pc: Pc, report: Report) {
    pc == Reporting(report) || pc == Done(report)
  }

  ghost predicate TicketOk(s: State, i: nat)
    requires i < |s.tickets|
  {
    var t := s.tickets[i];
    && (t.cancelled || t.pc.CancelSeen? ==> t.superseded)
    && (t.superseded ==> t.delayed && (Waiting(t.pc) || t.pc.CancelSeen? || ReportOf(t.pc, Superseded)))
    && (ReportOf(t.pc, Superseded) ==> t.superseded)
    && (Waiting(t.pc) ==> t.delayed)
    && (Waiting(t.pc) && !t.superseded ==> s.registry.IsPending(t.workspace, i))
    && t.completions == (if t.pc.Done? then 1 else 0)
    && t.removals <= (if Waiting(t.pc) || t.pc.CancelSeen? || t.pc.Cancelling? || t.pc.Releasing? || t.pc.Removing?
                         || ReportOf(t.pc, Superseded) then 0 else 1)
    && (t.pc == Recording(None) || ReportOf(t.pc, Finished(None)) ==> t.removals == 1)
  }

  ghost predicate PendingOk(s: State, w: string)
    requires w in s.registry.pending
  {
    var i := s.registry.pending[w];
    && i < |s.tickets|
    && s.tickets[i].workspace == w
    && Waiting(s.tickets[i].pc)
    && !s.tickets[i].superseded
    && forall j | i < j < |s.tickets| :: s.tickets[j].delayed ==> s.tickets[j].workspace != w
  }

  /** An immediate request about to cancel names a ticket that it has superseded. */
  ghost predicate VictimOk(s: State, i: nat)
    requires i < |s.tickets|
  {
    var pc := s.tickets[i].pc;
    pc.Cancelling? && pc.victim.Some? ==>
      pc.victim.value < |s.tickets| && pc.victim.value != i && s.tickets[pc.victim.value].superseded
  }

  /** A superseded ticket has been cancelled, or is about to be. */
  ghost predicate CancelComes(s: State, i: nat)
    requires i < |s.tickets|
  {
    s.tickets[i].superseded && !s.tickets[i].cancelled ==>
      exists j :: 0 <= j < |s.tickets| && s.tickets[j].pc == Cancelling(Some(i))
  }

  ghost predicate Inv(s: State) {
    && (forall i | 0 <= i < |s.tickets| :: TicketOk(s, i))
    && (forall i | 0 <= i < |s.tickets| :: VictimOk(s, i))
    && (forall i | 0 <= i < |s.tickets| :: CancelComes(s, i))
    && (forall w | w in s.registry.pending :: PendingOk(s, w))
  }

  lemma StepKeepsInv(s: State, step: Step)
    requires Inv(s) && Enabled(s, step)
    ensures Inv(Apply(s, step))
  {
    match step
    case ScheduleDelayed(w) => ScheduleDelayedKeepsInv(s, w);
    case ScheduleNow(w) => ScheduleNowKeepsInv(s, w);
    case CallCancel(i) => CallCancelKeepsInv(s, i);
    case BeginDelete(i) => LeaveKeepsInv(s, step, i);
    case ClearEntry(i) => LeaveKeepsInv(s, step, i);
    case _ => MoveKeepsInv(s, step);
  }

  lemma ScheduleDelayedKeepsInv(s: State, w: string)
    requires Inv(s) && Enabled(s, ScheduleDelayed(w))
    ensures Inv(Apply(s, ScheduleDelayed(w)))
  {
    var s' := Apply(s, ScheduleDelayed(w));
    var n := |s.tickets|;
    forall i | 0 <= i < |s'.tickets|
      ensures TicketOk(s', i) && VictimOk(s', i)
    {
      if i < n {
        assert TicketOk(s, i) && VictimOk(s, i);
      }
    }
    forall i | 0 <= i < |s'.tickets|
      ensures CancelComes(s', i)
    {
      if i < n {
        assert CancelComes(s, i);
        if s.tickets[i].superseded && !s.tickets[i].cancelled {
          var j :| 0 <= j < |s.tickets| && s.tickets[j].pc == Cancelling(Some(i));
          assert s'.tickets[j].pc == s.tickets[j].pc;
        }
      }
    }
    forall v | v in s'.registry.pending
      ensures PendingOk(s', v)
    {
      if v != w {
        assert PendingOk(s, v);
      }
    }
  }

  lemma ScheduleNowKeepsInv(s: State, w: string)
    requires Inv(s) && Enabled(s, ScheduleNow(w))
    ensures Inv(Apply(s, ScheduleNow(w)))
  {
    var s' := Apply(s, ScheduleNow(w));
    var n := |s.tickets|;
    assert w in s.registry.pending ==> PendingOk(s, w);
    forall i | 0 <= i < |s'.tickets|
      ensures TicketOk(s', i) && VictimOk(s', i)
    {
      if i < n {
        assert TicketOk(s, i) && VictimOk(s, i);
      }
    }
    forall i | 0 <= i < |s'.tickets|
      ensures CancelComes(s', i)
    {
      if i < n {
        assert CancelComes(s, i);
        if s.registry.Existing(w) == Some(i) {
          assert s'.tickets[n].pc == Cancelling(Some(i));
        } else if s.tickets[i].superseded && !s.tickets[i].cancelled {
          var j :| 0 <= j < |s.tickets| && s.tickets[j].pc == Cancelling(Some(i));
          assert s'.tickets[j].pc == s.tickets[j].pc;
        }
      }
    }
    forall v | v in s'.registry.pending
      ensures PendingOk(s', v)
    {
      assert PendingOk(s, v);
    }
  }

  lemma CallCancelKeepsInv(s: State, i: nat)
    requires Inv(s) && Enabled(s, CallCancel(i))
    ensures Inv(Apply(s, CallCancel(i)))
  {
    var s' := Apply(s, CallCancel(i));
    assert VictimOk(s, i);
    forall k | 0 <= k < |s'.tickets|
      ensures TicketOk(s', k) && VictimOk(s', k)
    {
      assert TicketOk(s, k) && VictimOk(s, k);
    }
    forall k | 0 <= k < |s'.tickets|
      ensures CancelComes(s', k)
    {
      assert CancelComes(s, k);
      if s'.tickets[k].superseded && !s'.tickets[k].cancelled {
        var j :| 0 <= j < |s.tickets| && s.tickets[j].pc == Cancelling(Some(k));
        assert j != i;
        assert s'.tickets[j].pc == s.tickets[j].pc;
      }
    }
    forall v | v in s'.registry.pending
      ensures PendingOk(s', v)
    {
      assert PendingOk(s, v);
    }
  }

  /** The steps of one ticket alone that leave the set of pending entries as it is. */
  predicate IsMove(step: Step) {
    step.TakeTimer? || step.TakeCancel? || step.Release? || step.Remove? || step.RecordResult? || step.Complete?
  }

  lemma MovedTicketIsOk(s: State, step: Step)
    requires Inv(s) && Enabled(s, step) && IsMove(step)
    ensures TicketOk(Apply(s, step), step.i)
  {
    assert TicketOk(s, step.i);
    match step
    case TakeTimer(i) =>
    case TakeCancel(i) =>
    case Release(i, _) =>
    case Remove(i, _) =>
    case RecordResult(i) =>
    case Complete(i) =>
  }

  lemma MoveChangesOneTicket(s: State, step: Step)
    requires Inv(s) && Enabled(s, step) && IsMove(step)
    ensures var s', i := Apply(s, step), step.i;
            && s'.registry.pending == s.registry.pending && |s'.tickets| == |s.tickets|
            && s'.tickets == s.tickets[i := s'.tickets[i]]
            && !s'.tickets[i].pc.Cancelling? && !s.tickets[i].pc.Cancelling?
            && s'.tickets[i].superseded == s.tickets[i].superseded && s'.tickets[i].cancelled == s.tickets[i].cancelled
            && s'.tickets[i].workspace == s.tickets[i].workspace && s'.tickets[i].delayed == s.tickets[i].delayed
            && (Waiting(s.tickets[i].pc) && !s.tickets[i].superseded ==> Waiting(s'.tickets[i].pc))
  {
    assert TicketOk(s, step.i);
  }

  lemma MoveKeepsTickets(s: State, step: Step, k: nat)
    requires Inv(s) && Enabled(s, step) && IsMove(step) && k < |s.tickets|
    ensures |Apply(s, step).tickets| == |s.tickets| && TicketOk(Apply(s, step), k) && VictimOk(Apply(s, step), k)
  {
    MoveChangesOneTicket(s, step);
    MovedTicketIsOk(s, step);
    assert TicketOk(s, k) && VictimOk(s, k);
  }

  lemma MoveKeepsPending(s: State, step: Step, v: string)
    requires Inv(s) && Enabled(s, step) && IsMove(step) && v in s.registry.pending
    ensures v in Apply(s, step).registry.pending && PendingOk(Apply(s, step), v)
  {
    MoveChangesOneTicket(s, step);
    assert PendingOk(s, v);
  }

  lemma MoveKeepsInv(s: State, step: Step)
    requires Inv(s) && Enabled(s, step) && IsMove(step)
    ensures Inv(Apply(s, step))
  {
    var s' := Apply(s, step);
    MoveChangesOneTicket(s, step);
    forall k | 0 <= k < |s'.tickets|
      ensures TicketOk(s', k) && VictimOk(s', k)
    {
      MoveKeepsTickets(s, step, k);
    }
    OtherCancelsCome(s, s', step.i);
    forall v | v in s'.registry.pending
      ensures PendingOk(s', v)
    {
      MoveKeepsPending(s, step, v);
    }
  }

  predicate IsLeave(step: Step, i: nat) {
    step == BeginDelete(i) || step == ClearEntry(i)
  }

  lemma LeaveKeepsTicket(s: State, step: Step, i: nat, k: nat)
    requires Inv(s) && Enabled(s, step) && IsLeave(step, i) && k < |s.tickets|
    ensures |Apply(s, step).tickets| == |s.tickets| && TicketOk(Apply(s, step), k) && VictimOk(Apply(s, step), k)
  {
    assert TicketOk(s, i);
    assert TicketOk(s, k) && VictimOk(s, k);
  }

  lemma LeaveKeepsPending(s: State, step: Step, i: nat, v: string)
    requires Inv(s) && Enabled(s, step) && IsLeave(step, i) && v in Apply(s, step).registry.pending
    ensures PendingOk(Apply(s, step), v)
  {
    assert TicketOk(s, i);
    assert PendingOk(s, v);
  }

  lemma LeaveKeepsInv(s: State, step: Step, i: nat)
    requires Inv(s) && Enabled(s, step) && IsLeave(step, i)
    ensures Inv(Apply(s, step))
  {
    var s' := Apply(s, step);
    forall k | 0 <= k < |s'.tickets|
      ensures TicketOk(s', k) && VictimOk(s', k)
    {
      LeaveKeepsTicket(s, step, i, k);
    }
    assert TicketOk(s, i);
    OtherCancelsCome(s, s', i);
    forall v | v in s'.registry.pending
      ensures PendingOk(s', v)
    {
      LeaveKeepsPending(s, step, i, v);
    }
  }

  lemma OtherCancelsCome(s: State, s': State, i: nat)
    requires Inv(s)
    requires i < |s.tickets| && |s'.tickets| == |s.tickets|
    requires !s.tickets[i].pc.Cancelling?
    requires s'.tickets[i].superseded == s.tickets[i].superseded && s'.tickets[i].cancelled == s.tickets[i].cancelled
    requires forall k | 0 <= k < |s.tickets| && k != i :: s'.tickets[k] == s.tickets[k]
    ensures forall k | 0 <= k < |s'.tickets| :: CancelComes(s', k)
  {
    forall k | 0 <= k < |s'.tickets|
      ensures CancelComes(s', k)
    {
      assert CancelComes(s, k);
      if s.tickets[k].superseded && !s.tickets[k].cancelled {
        var j :| 0 <= j < |s.tickets| && s.tickets[j].pc == Cancelling(Some(k));
        assert s'.tickets[j] == s.tickets[j];
      }
    }
  }

  lemma {:induction false} RunKeepsInv(s: State, steps: seq<Step>)
    requires Inv(s) && IsRun(s, steps)
    ensures Inv(Run(s, steps))
    decreases |steps|
  {
    if steps != [] {
      StepKeepsInv(s, steps[0]);
      RunKeepsInv(Apply(s, steps[0]), steps[1..]);
    }
  }

  // ----- What every run guarantees

  /** A request that was replaced or cancelled while pending is reported so and never removes anything; the others are never reported so. */
  lemma SupersededRequestsNeverDelete(steps: seq<Step>, i: nat)
    requires IsRun(START, steps) && i < |Run(START, steps).tickets|
    ensures var t := Run(START, steps).tickets[i];
            && (t.superseded ==> t.removals == 0 && !t.pc.Releasing? && !t.pc.Removing? && !t.pc.Recording?)
            && (t.pc.Done? ==> (t.pc.report == Superseded <==> t.superseded))
  {
    RunKeepsInv(START, steps);
    assert TicketOk(Run(START, steps), i);
  }

  /** Every accepted request is reported at most once, and exactly once when it is done. */
  lemma RequestsCompleteOnce(steps: seq<Step>, i: nat)
    requires IsRun(START, steps) && i < |Run(START, steps).tickets|
    ensures var t := Run(START, steps).tickets[i];
            && t.completions <= 1 && (t.completions == 1 <==> t.pc.Done?)
            && t.removals <= 1 && (t.pc == Done(Finished(None)) ==> t.removals == 1)
  {
    RunKeepsInv(START, steps);
    assert TicketOk(Run(START, steps), i);
  }

  /** Being superseded is final. */
  lemma SupersededForever(s: State, step: Step, i: nat)
    requires Enabled(s, step) && i < |s.tickets|
    ensures i < |Apply(s, step).tickets|
    ensures s.tickets[i].superseded ==> Apply(s, step).tickets[i].superseded
    ensures Apply(s, step).tickets[i].workspace == s.tickets[i].workspace
  {
  }

  /** No cancelled entry is pending, and a pending entry is the newest delayed request for its workspace. */
  lemma PendingEntriesAreNewest(steps: seq<Step>, w: string)
    requires IsRun(START, steps)
    requires w in Run(START, steps).registry.pending
    ensures var s := Run(START, steps);
            var i := s.registry.pending[w];
            && i < |s.tickets| && s.tickets[i].workspace == w && s.tickets[i].delayed
            && !s.tickets[i].cancelled && !s.tickets[i].superseded
            && forall j | i < j < |s.tickets| && s.tickets[j].delayed :: s.tickets[j].workspace != w
  {
    var s := Run(START, steps);
    RunKeepsInv(START, steps);
    assert PendingOk(s, w);
    assert TicketOk(s, s.registry.pending[w]);
  }

  /** Of two delayed requests for a workspace, the older is superseded by the time the newer exists, or has left the select for good. */
  lemma NewerRequestsSupersede(steps: seq<Step>, i: nat, j: nat)
    requires IsRun(START, steps)
    requires i < j < |Run(START, steps).tickets|
    requires var s := Run(START, steps);
             s.tickets[i].workspace == s.tickets[j].workspace && s.tickets[i].delayed && s.tickets[j].delayed
    ensures var t := Run(START, steps).tickets[i];
            Waiting(t.pc) ==> t.superseded
  {
    var s := Run(START, steps);
    RunKeepsInv(START, steps);
    assert TicketOk(s, i);
    assert s.tickets[i].workspace in s.registry.pending ==> PendingOk(s, s.tickets[i].workspace);
  }

  // ----- What is reported and recorded

  /** The last step of a run. */
  lemma {:induction false} LastStep(s: State, steps: seq<Step>)
    requires IsRun(s, steps) && steps != []
    ensures var init := steps[..|steps| - 1];
            && IsRun(s, init) && Enabled(Run(s, init), steps[|steps| - 1])
            && Run(s, steps) == Apply(Run(s, init), steps[|steps| - 1])
    decreases |steps|
  {
    var init := steps[..|steps| - 1];
    if |steps| == 1 {
      assert steps[1..] == [] && init == [];
    } else {
      LastStep(Apply(s, steps[0]), steps[1..]);
      assert init[0] == steps[0] && init[1..] == steps[1..][..|steps| - 2];
    }
  }

  /** The requests accepted, in order: their workspace, and whether they are delayed. */
  function Requests(steps: seq<Step>): seq<(string, bool)>
    decreases |steps|
  {
    if steps == [] then []
    else
      var earlier := Requests(steps[..|steps| - 1]);
      match steps[|steps| - 1]
      case ScheduleDelayed(w) => earlier + [(w, true)]
      case ScheduleNow(w) => earlier + [(w, false)]
      case _ => earlier
  }

  /** How the delete of request `i` ended, if it has: the error of its removal, or of its release if that failed. */
  function ResultOf(steps: seq<Step>, i: nat): Option<Option<string>>
    decreases |steps|
  {
    if steps == [] then None
    else
      var last := steps[|steps| - 1];
      if last.Remove? && last.i == i then Some(last.error)
      else if last.Release? && last.i == i && last.error.Some? then Some(last.error)
      else ResultOf(steps[..|steps| - 1], i)
  }

  predicate Shows(pc: Pc, result: Option<Option<string>>) {
    match pc
    case Recording(error) => result == Some(error)
    case Reporting(Finished(error)) => result == Some(error)
    case Done(Finished(error)) => result == Some(error)
    case _ => result == None
  }

  ghost predicate AreTheRequests(s: State, steps: seq<Step>) {
    && |s.tickets| == |Requests(steps)|
    && forall i | 0 <= i < |s.tickets| :: (s.tickets[i].workspace, s.tickets[i].delayed) == Requests(steps)[i]
  }

  lemma StepKeepsRequests(s: State, init: seq<Step>, step: Step)
    requires Enabled(s, step) && AreTheRequests(s, init)
    ensures AreTheRequests(Apply(s, step), init + [step])
  {
    assert (init + [step])[..|init|] == init;
  }

  /** There is a ticket for each request, of its workspace and kind. */
  lemma {:induction false} TicketsAreTheRequests(steps: seq<Step>)
    requires IsRun(START, steps)
    ensures AreTheRequests(Run(START, steps), steps)
    decreases |steps|
  {
    if steps != [] {
      var init, last := steps[..|steps| - 1], steps[|steps| - 1];
      LastStep(START, steps);
      TicketsAreTheRequests(init);
      StepKeepsRequests(Run(START, init), init, last);
      assert init + [last] == steps;
    }
  }

  ghost predicate ShowsResult(s: State, steps: seq<Step>, i: nat) {
    if i < |s.tickets| then Shows(s.tickets[i].pc, ResultOf(steps, i)) else ResultOf(steps, i) == None
  }

  lemma StepShowsResult(s: State, init: seq<Step>, step: Step, i: nat)
    requires Enabled(s, step) && ShowsResult(s, init, i)
    ensures ShowsResult(Apply(s, step), init + [step], i)
  {
    assert (init + [step])[..|init|] == init;
  }

  /** A ticket shows how its delete has ended so far. */
  lemma {:induction false} TicketsShowTheResults(steps: seq<Step>, i: nat)
    requires IsRun(START, steps)
    ensures ShowsResult(Run(START, steps), steps, i)
    decreases |steps|
  {
    if steps != [] {
      var init, last := steps[..|steps| - 1], steps[|steps| - 1];
      LastStep(START, steps);
      TicketsShowTheResults(init, i);
      StepShowsResult(Run(START, init), init, last, i);
      assert init + [last] == steps;
    }
  }

  /** Every result of request `i` is the one that counts: there is at most one. */
  lemma {:induction false} ResultsAreUnique(steps: seq<Step>, i: nat, error: Option<string>)
    requires IsRun(START, steps)
    ensures Remove(i, error) in steps ==> ResultOf(steps, i) == Some(error)
    ensures Release(i, error) in steps && error.Some? ==> ResultOf(steps, i) == Some(error)
    ensures ResultOf(steps, i) == Some(None) ==> Remove(i, None) in steps
    decreases |steps|
  {
    if steps != [] {
      var init, last := steps[..|steps| - 1], steps[|steps| - 1];
      LastStep(START, steps);
      ResultsAreUnique(init, i, error);
      TicketsShowTheResults(init, i);
      assert steps == init + [last];
    }
  }

  /** A ticket on its way to the removal, or past it, was released without an error. */
  ghost predicate ReleasedBefore(s: State, steps: seq<Step>, i: nat) {
    i < |s.tickets| && (s.tickets[i].pc.Removing? || s.tickets[i].removals > 0) ==> Release(i, None) in steps
  }

  lemma StepKeepsReleased(s: State, init: seq<Step>, step: Step, i: nat)
    requires Enabled(s, step) && ReleasedBefore(s, init, i)
    ensures ReleasedBefore(Apply(s, step), init + [step], i)
  {
    assert step in init + [step];
  }

  lemma {:induction false} RemovalsFollowReleases(steps: seq<Step>, i: nat)
    requires IsRun(START, steps)
    ensures ReleasedBefore(Run(START, steps), steps, i)
    decreases |steps|
  {
    if steps != [] {
      var init, last := steps[..|steps| - 1], steps[|steps| - 1];
      LastStep(START, steps);
      RemovalsFollowReleases(init, i);
      StepKeepsReleased(Run(START, init), init, last, i);
      assert init + [last] == steps;
    }
  }

  /**
   A request that was not superseded is reported with the error of its removal, or of its release
   if that failed: whatever error that was, and without one only if both succeeded.
   */
  lemma ReportsTellTheResult(steps: seq<Step>, i: nat, error: Option<string>)
    requires IsRun(START, steps) && i < |Run(START, steps).tickets| && Run(START, steps).tickets[i].pc.Done?
    ensures var report := Run(START, steps).tickets[i].pc.report;
            && (Remove(i, error) in steps ==> report == Finished(error))
            && (Release(i, error) in steps && error.Some? ==> report == Finished(error))
            && (report == Finished(None) ==> Release(i, None) in steps && Remove(i, None) in steps)
  {
    RunKeepsInv(START, steps);
    assert TicketOk(Run(START, steps), i);
    TicketsShowTheResults(steps, i);
    ResultsAreUnique(steps, i, error);
    RemovalsFollowReleases(steps, i);
  }

  /** The error of the last recorded result for the workspace; no error, and no result, is `None`. */
  ghost function LastError(steps: seq<Step>, w: string): Option<string>
    requires IsRun(START, steps)
    decreases |steps|
  {
    if steps == [] then None
    else
      LastStep(START, steps);
      var init, last := steps[..|steps| - 1], steps[|steps| - 1];
      if last.RecordResult? && Run(START, init).tickets[last.i].workspace == w && ResultOf(init, last.i).Some? then
        ResultOf(init, last.i).value
      else LastError(init, w)
  }

  /** `failures` holds exactly the errors of the last recorded results. */
  lemma {:induction false} FailuresAreTheLastErrors(steps: seq<Step>, w: string)
    requires IsRun(START, steps)
    ensures var failures := Run(START, steps).registry.failures;
            LastError(steps, w) == if w in failures then Some(failures[w]) else None
    decreases |steps|
  {
    if steps != [] {
      var init, last := steps[..|steps| - 1], steps[|steps| - 1];
      LastStep(START, steps);
      FailuresAreTheLastErrors(init, w);
      if last.RecordResult? {
        TicketsShowTheResults(init, last.i);
      }
    }
  }

  // ----- An immediate request

  lemma OneStep(s: State, step: Step, rest: seq<Step>)
    requires Enabled(s, step) && IsRun(Apply(s, step), rest)
    ensures IsRun(s, [step] + rest) && Run(s, [step] + rest) == Run(Apply(s, step), rest)
  {
    assert ([step] + rest)[1..] == rest;
  }

  lemma TwoSteps(s: State, first: Step, second: Step)
    requires Enabled(s, first) && Enabled(Apply(s, first), second)
    ensures IsRun(s, [first, second]) && Run(s, [first, second]) == Apply(Apply(s, first), second)
  {
    OneStep(Apply(s, first), second, []);
    OneStep(s, first, [second]);
    assert [first] + [second] == [first, second];
  }

  /** From the release of the terminal to the report. */
  function DeleteSteps(i: nat, release: Option<string>, removal: Option<string>): seq<Step> {
    [Release(i, release)] + (if release.Some? then [] else [Remove(i, removal)]) + [RecordResult(i), Complete(i)]
  }

  lemma ReportAlone(s: State, i: nat)
    requires i < |s.tickets| && s.tickets[i].pc.Recording?
    ensures IsRun(s, [RecordResult(i), Complete(i)])
    ensures var t, after := s.tickets[i], Run(s, [RecordResult(i), Complete(i)]);
            && after.registry == s.registry.Record(t.workspace, t.pc.error)
            && i < |after.tickets| && after.tickets[i].pc == Done(Finished(t.pc.error))
            && after.tickets[i].completions == t.completions + 1
  {
    TwoSteps(s, RecordResult(i), Complete(i));
  }

  lemma DeleteAlone(s: State, i: nat, release: Option<string>, removal: Option<string>)
    requires i < |s.tickets| && s.tickets[i].pc.Releasing?
    ensures IsRun(s, DeleteSteps(i, release, removal))
    ensures var t, after, error := s.tickets[i], Run(s, DeleteSteps(i, release, removal)), DeleteError(release, removal);
            && after.registry == s.registry.Record(t.workspace, error)
            && i < |after.tickets| && after.tickets[i].pc == Done(Finished(error))
            && after.tickets[i].completions == t.completions + 1
  {
    var released, end := Apply(s, Release(i, release)), [RecordResult(i), Complete(i)];
    if release.Some? {
      ReportAlone(released, i);
      OneStep(s, Release(i, release), end);
      assert DeleteSteps(i, release, removal) == [Release(i, release)] + end;
    } else {
      ReportAlone(Apply(released, Remove(i, removal)), i);
      OneStep(released, Remove(i, removal), end);
      OneStep(s, Release(i, release), [Remove(i, removal)] + end);
      assert DeleteSteps(i, release, removal) == [Release(i, release)] + ([Remove(i, removal)] + end);
    }
  }

  /** An immediate request that no step of another comes between. */
  function ScheduleNowSteps(w: string, i: nat, release: Option<string>, removal: Option<string>): seq<Step> {
    [ScheduleNow(w)] + ([CallCancel(i)] + DeleteSteps(i, release, removal))
  }

  /**
   It leaves the registry as the method `Schedule` does, has cancelled the pending request, and is
   reported with the error that `Schedule` returns.
   */
  lemma ScheduleNowAlone(s: State, w: string, release: Option<string>, removal: Option<string>)
    requires Inv(s)
    ensures IsRun(s, ScheduleNowSteps(w, |s.tickets|, release, removal))
    ensures var after := Run(s, ScheduleNowSteps(w, |s.tickets|, release, removal));
            var error := if release.Some? then release else removal;
            && after.registry == s.registry.Disarm(w).Record(w, error)
            && |s.tickets| < |after.tickets| && after.tickets[|s.tickets|].pc == Done(Finished(error))
  {
    var i := |s.tickets|;
    assert w in s.registry.pending ==> PendingOk(s, w);
    var begun := Apply(s, ScheduleNow(w));
    var cancelled := Apply(begun, CallCancel(i));
    DeleteAlone(cancelled, i, release, removal);
    OneStep(begun, CallCancel(i), DeleteSteps(i, release, removal));
    OneStep(s, ScheduleNow(w), [CallCancel(i)] + DeleteSteps(i, release, removal));
  }

  /** A request is rejected exactly if the context is done or its workspace or path is nothing but spaces, and with the first of these that holds. */
  lemma RejectedIff(request: Request, contextDone: bool)
    ensures Rejection(request, contextDone) ==
            if contextDone then Some(ContextDone)
            else if AllSpace(Go, request.workspace) then Some(WorkspaceRequired)
            else if AllSpace(Go, request.path) then Some(PathRequired)
            else None
  {
    TrimsToNothingIff(Go, request.workspace);
    TrimsToNothingIff(Go, request.path);
  }

  // ----- Progress

  function Rank(pc: Pc): nat {
    match pc
    case Armed => 6
    case TimerFired => 5
    case CancelSeen => 2
    case Cancelling(_) => 5
    case Releasing => 4
    case Removing => 3
    case Recording(_) => 2
    case Reporting(_) => 1
    case Done(_) => 0
  }

  predicate IsStepOf(step: Step, i: nat) {
    !step.ScheduleDelayed? && !step.ScheduleNow? && step.i == i
  }

  /** A ticket's own steps lower its rank, and the steps of others leave it where it is. */
  lemma OwnStepsAdvance(s: State, step: Step, i: nat)
    requires Inv(s) && Enabled(s, step) && i < |s.tickets|
    ensures if IsStepOf(step, i) then Rank(Apply(s, step).tickets[i].pc) < Rank(s.tickets[i].pc)
            else Apply(s, step).tickets[i].pc == s.tickets[i].pc
  {
    if step.CallCancel? {
      assert VictimOk(s, step.i);
    }
  }

  /** A step that the ticket can take now, whatever the others do. */
  function NextStep(t: Ticket, i: nat): Step
    requires !t.pc.Done?
  {
    match t.pc
    case Armed => if t.cancelled then TakeCancel(i) else TakeTimer(i)
    case TimerFired => BeginDelete(i)
    case CancelSeen => ClearEntry(i)
    case Cancelling(_) => CallCancel(i)
    case Releasing => Release(i, None)
    case Removing => Remove(i, None)
    case Recording(_) => RecordResult(i)
    case Reporting(_) => Complete(i)
  }

  /** No request is ever stuck: until it is done it has a step of its own, and at most six of them. */
  lemma NoRequestIsStuck(steps: seq<Step>, i: nat)
    requires IsRun(START, steps) && i < |Run(START, steps).tickets|
    requires !Run(START, steps).tickets[i].pc.Done?
    ensures var s := Run(START, steps);
            var step := NextStep(s.tickets[i], i);
            && Enabled(s, step) && IsStepOf(step, i)
            && Rank(Apply(s, step).tickets[i].pc) < Rank(s.tickets[i].pc) <= 6
  {
    var s := Run(START, steps);
    RunKeepsInv(START, steps);
    assert VictimOk(s, i);
    OwnStepsAdvance(s, NextStep(s.tickets[i], i), i);
  }

  // ----- Accounting

  function PendingIds(s: State): set<nat> {
    set i | 0 <= i < |s.tickets| && Waiting(s.tickets[i].pc) && !s.tickets[i].superseded
  }

  function CancelledIds(s: State): set<nat> {
    set i | 0 <= i < |s.tickets| && s.tickets[i].superseded && !s.tickets[i].pc.Done?
  }

  function InFlightIds(s: State): set<nat> {
    set i | 0 <= i < |s.tickets| && !s.tickets[i].superseded && !Waiting(s.tickets[i].pc) && !s.tickets[i].pc.Done?
  }

  function CompletedIds(s: State): set<nat> {
    set i | 0 <= i < |s.tickets| && s.tickets[i].pc.Done?
  }

  function Below(n: nat): (ids: set<nat>)
    ensures |ids| == n
    ensures forall i: nat :: i in ids <==> i < n
  {
    if n == 0 then {} else Below(n - 1) + {n - 1}
  }

  lemma {:induction false} ImageSize(m: map<string, nat>, image: set<nat>)
    requires forall v, w | v in m && w in m && m[v] == m[w] :: v == w
    requires m.Values == image
    ensures |m| == |image|
    decreases |m|
  {
    if m != map[] {
      var w :| w in m;
      var rest := m - {w};
      assert rest.Values == image - {m[w]} by {
        forall v | v in rest
          ensures m[v] in image - {m[w]}
        {
          assert m[v] in m.Values;
        }
        forall i | i in image - {m[w]}
          ensures i in rest.Values
        {
          var v :| v in m && m[v] == i;
          assert v in rest;
        }
      }
      ImageSize(rest, image - {m[w]});
      assert m[w] in m.Values;
      assert |m| == |rest| + 1 by {
        assert m == rest[w := m[w]];
      }
    }
  }

  lemma PendingMapSize(s: State)
    requires Inv(s)
    ensures |s.registry.pending| == |PendingIds(s)|
  {
    var m := s.registry.pending;
    forall w | w in m
      ensures m[w] in PendingIds(s) && s.tickets[m[w]].workspace == w
    {
      assert PendingOk(s, w);
    }
    forall i | i in PendingIds(s)
      ensures i in m.Values
    {
      assert TicketOk(s, i);
      assert s.tickets[i].workspace in m;
    }
    assert m.Values == PendingIds(s);
    ImageSize(m, PendingIds(s));
  }

  lemma TicketsAreCovered(s: State)
    requires Inv(s)
    ensures Below(|s.tickets|) == PendingIds(s) + CancelledIds(s) + InFlightIds(s) + CompletedIds(s)
  {
    forall i | i in Below(|s.tickets|)
      ensures i in PendingIds(s) + CancelledIds(s) + InFlightIds(s) + CompletedIds(s)
    {
      assert TicketOk(s, i);
    }
  }

  lemma SupersededAreApart(s: State)
    ensures CancelledIds(s) !! PendingIds(s) && CancelledIds(s) !! InFlightIds(s) && CancelledIds(s) !! CompletedIds(s)
  {
  }

  lemma OthersAreApart(s: State)
    ensures PendingIds(s) !! InFlightIds(s) && PendingIds(s) !! CompletedIds(s) && InFlightIds(s) !! CompletedIds(s)
  {
  }

  lemma SizesAddUp(a: set<nat>, b: set<nat>, c: set<nat>, d: set<nat>)
    requires a !! b && a !! c && a !! d && b !! c && b !! d && c !! d
    ensures |a + b + c + d| == |a| + |b| + |c| + |d|
  {
    assert (a + b) !! c && (a + b + c) !! d;
  }

  /** Accepted requests are pending, cancelled and not yet reported, in flight, or completed; each in one way. */
  lemma AcceptedRequestsAreAccountedFor(steps: seq<Step>)
    requires IsRun(START, steps)
    ensures var s := Run(START, steps);
            |s.tickets| == |s.registry.pending| + |CancelledIds(s)| + |InFlightIds(s)| + |CompletedIds(s)|
  {
    var s := Run(START, steps);
    RunKeepsInv(START, steps);
    PendingMapSize(s);
    TicketsAreCovered(s);
    SupersededAreApart(s);
    OthersAreApart(s);
    SizesAddUp(PendingIds(s), CancelledIds(s), InFlightIds(s), CompletedIds(s));
  }
}
