/**
 Acquiring and releasing the one terminal of a workspace
 (services/runner/internal/engine/terminal_sessions.go, TerminalManager.Acquire and Release).

 `TerminalManager` holds what the manager's mutex protects; its methods are the four critical
 sections. The machine interleaves any number of Acquire and Release calls, with starting and
 closing a shell, and a session closing on its own, as steps of their own.
 */
module TerminalSlots {
  import opened Common

  datatype SlotState = Starting | Active | Releasing

  /**
   A slot. The counters say how often its two channels have been closed; `owner` is the call
   that last put the slot into Starting or Releasing. Neither exists in the program.
   */
  datatype Slot = Slot(
    workspace: string, state: SlotState, session: Option<nat>,
    readyCloses: nat, releasedCloses: nat, owner: nat)

  datatype AcquireDecision = Reuse(session: nat) | AwaitReady(slot: nat) | AwaitReleased(slot: nat) | StartIn(slot: nat)

  datatype ReleaseDecision = NothingHeld | AwaitReadyFirst(slot: nat) | AwaitOtherRelease(slot: nat) | CloseIn(slot: nat)

  /** All slots ever made, and the current one of each workspace. */
  datatype Table = Table(slots: seq<Slot>, current: map<string, nat>)
  {
    predicate Indexed() {
      forall w | w in current :: current[w] < |slots|
    }

    predicate IsCurrent(i: nat)
      requires i < |slots|
    {
      slots[i].workspace in current && current[slots[i].workspace] == i
    }

    function With(i: nat, slot: Slot): Table
      requires i < |slots|
    {
      this.(slots := slots[i := slot])
    }

    function Add(w: string, caller: nat): Table {
      Table(slots + [Slot(w, Starting, None, 0, 0, caller)], current[w := |slots|])
    }

    function Drop(w: string): Table {
      this.(current := current - {w})
    }

    /** The session that a current slot can hand out. */
    function Usable(w: string, closed: set<nat>): Option<nat>
      requires Indexed()
    {
      if w in current && slots[current[w]].state == Active && slots[current[w]].session.Some?
         && slots[current[w]].session.value !in closed
      then slots[current[w]].session else None
    }

    function EnterAcquire(w: string, closed: set<nat>, caller: nat): (Table, AcquireDecision)
      requires Indexed()
    {
      if Usable(w, closed).Some? then (this, Reuse(Usable(w, closed).value))
      else if w in current && slots[current[w]].state == Starting then (this, AwaitReady(current[w]))
      else if w in current && slots[current[w]].state == Releasing then (this, AwaitReleased(current[w]))
      else (Add(w, caller), StartIn(|slots|))
    }

    /** After the start of a shell: with a session, or with none if it failed. */
    function Install(i: nat, session: Option<nat>): Table
      requires i < |slots|
    {
      if !IsCurrent(i) then this
      else
        var ready := slots[i].(readyCloses := slots[i].readyCloses + 1);
        if session.None? then With(i, ready).Drop(slots[i].workspace)
        else With(i, ready.(session := session, state := Active))
    }

    function EnterRelease(w: string, caller: nat): (Table, ReleaseDecision)
      requires Indexed()
    {
      if w !in current then (this, NothingHeld)
      else
        var i := current[w];
        match slots[i].state
        case Starting => (this, AwaitReadyFirst(i))
        case Releasing => (this, AwaitOtherRelease(i))
        case Active => (With(i, slots[i].(state := Releasing, owner := caller)), CloseIn(i))
    }

    /** After the session has been closed. */
    function FinishRelease(i: nat): Table
      requires i < |slots|
    {
      var released := With(i, slots[i].(releasedCloses := slots[i].releasedCloses + 1));
      if IsCurrent(i) then released.Drop(slots[i].workspace) else released
    }
  }

  class TerminalManager {
    var slots: seq<Slot>
    var current: map<string, nat>

    ghost function View(): Table
      reads this
    {
      Table(slots, current)
    }

    constructor ()
      ensures View() == Table([], map[])
    {
      slots := [];
      current := map[];
    }

    method EnterAcquire(w: string, closed: set<nat>, caller: nat) returns (decision: AcquireDecision)
      requires View().Indexed()
      modifies this
      ensures (View(), decision) == old(View()).EnterAcquire(w, closed, caller)
    {
      if w in current {
        var slot := slots[current[w]];
        match slot.state
        case Active =>
          if slot.session.Some? && slot.session.value !in closed {
            return Reuse(slot.session.value);
          }
          current := current - {w};
        case Starting => return AwaitReady(current[w]);
        case Releasing => return AwaitReleased(current[w]);
      }
      assert old(current)[w := |slots|] == current[w := |slots|];
      current := current[w := |slots|];
      slots := slots + [Slot(w, Starting, None, 0, 0, caller)];
      return StartIn(|slots| - 1);
    }

    method Install(i: nat, session: Option<nat>)
      requires i < |slots|
      modifies this
      ensures View() == old(View()).Install(i, session)
    {
      var w := slots[i].workspace;
      if w in current && current[w] == i {
        if session.None? {
          current := current - {w};
        } else {
          slots := slots[i := slots[i].(session := session, state := Active)];
        }
        slots := slots[i := slots[i].(readyCloses := slots[i].readyCloses + 1)];
      }
    }

    method EnterRelease(w: string, caller: nat) returns (decision: ReleaseDecision)
      requires View().Indexed()
      modifies this
      ensures (View(), decision) == old(View()).EnterRelease(w, caller)
    {
      if w !in current {
        return NothingHeld;
      }
      var i := current[w];
      match slots[i].state
      case Starting => return AwaitReadyFirst(i);
      case Releasing => return AwaitOtherRelease(i);
      case Active =>
        slots := slots[i := slots[i].(state := Releasing, owner := caller)];
        return CloseIn(i);
    }

    method FinishRelease(i: nat)
      requires i < |slots|
      modifies this
      ensures View() == old(View()).FinishRelease(i)
    {
      var w := slots[i].workspace;
      if w in current && current[w] == i {
        current := current - {w};
      }
      slots := slots[i := slots[i].(releasedCloses := slots[i].releasedCloses + 1)];
    }
  }

  // ----- The machine

  datatype Outcome = Session(id: nat) | Failed | Released

  datatype Pc =
    | Entering                                     // at the top of the loop
    | WaitingReady(slot: nat)
    | WaitingReleased(slot: nat)
    | StartingShell(slot: nat)                     // inside startTerminalSession
    | ShellStarted(slot: nat, started: Option<nat>)  // back from it, before the lock
    | ClosingShell(slot: nat)                      // inside session.close
    | ShellClosed(slot: nat)                       // back from it, before the lock
    | Returned(outcome: Outcome)

  datatype Call = Call(acquires: bool, workspace: string, pc: Pc)

  /** `sessions` lists the workspace of every session ever started. */
  datatype State = State(calls: seq<Call>, table: Table, sessions: seq<string>, closed: set<nat>)
  {
    function Goto(c: nat, pc: Pc): State
      requires c < |calls|
    {
      this.(calls := calls[c := calls[c].(pc := pc)])
    }

    predicate IsOpen(id: nat) {
      id < |sessions| && id !in closed
    }
  }

  const START := State([], Table([], map[]), [], {})

  datatype Step =
    | CallAcquire(workspace: string)
    | CallRelease(workspace: string)
    | GiveUp(c: nat)                     // the context of an Acquire is done, or its path is missing
    | Enter(c: nat)
    | Wake(c: nat)
    | StartReturns(c: nat, ok: bool)
    | InstallSession(c: nat)
    | CloseReturns(c: nat)
    | RemoveSlot(c: nat)
    | SessionCloses(id: nat)             // on its own

  predicate Enabled(s: State, step: Step) {
    match step
    case CallAcquire(_) => true
    case CallRelease(_) => true
    case GiveUp(c) =>
      && c < |s.calls| && s.calls[c].acquires
      && (s.calls[c].pc.Entering? || s.calls[c].pc.WaitingReady? || s.calls[c].pc.WaitingReleased?)
    case Enter(c) => c < |s.calls| && s.calls[c].pc.Entering? && s.table.Indexed()
    case Wake(c) =>
      && c < |s.calls|
      && (match s.calls[c].pc
          case WaitingReady(i) => i < |s.table.slots| && s.table.slots[i].readyCloses > 0
          case WaitingReleased(i) => i < |s.table.slots| && s.table.slots[i].releasedCloses > 0
          case _ => false)
    case StartReturns(c, _) => c < |s.calls| && s.calls[c].pc.StartingShell?
    case InstallSession(c) => c < |s.calls| && s.calls[c].pc.ShellStarted? && s.calls[c].pc.slot < |s.table.slots|
    case CloseReturns(c) => c < |s.calls| && s.calls[c].pc.ClosingShell? && s.calls[c].pc.slot < |s.table.slots|
    case RemoveSlot(c) => c < |s.calls| && s.calls[c].pc.ShellClosed? && s.calls[c].pc.slot < |s.table.slots|
    case SessionCloses(id) => id < |s.sessions|
  }

  function Apply(s: State, step: Step): State
    requires Enabled(s, step)
  {
    match step
    case CallAcquire(w) => s.(calls := s.calls + [Call(true, w, Entering)])
    case CallRelease(w) => s.(calls := s.calls + [Call(false, w, Entering)])
    case GiveUp(c) => s.Goto(c, Returned(Failed))
    case Enter(c) =>
      if s.calls[c].acquires then
        var (table, decision) := s.table.EnterAcquire(s.calls[c].workspace, s.closed, c);
        s.Goto(c, match decision
                  case Reuse(id) => Returned(Session(id))
                  case AwaitReady(i) => WaitingReady(i)
                  case AwaitReleased(i) => WaitingReleased(i)
                  case StartIn(i) => StartingShell(i)).(table := table)
      else
        var (table, decision) := s.table.EnterRelease(s.calls[c].workspace, c);
        s.Goto(c, match decision
                  case NothingHeld => Returned(Released)
                  case AwaitReadyFirst(i) => WaitingReady(i)
                  case AwaitOtherRelease(i) => WaitingReleased(i)
                  case CloseIn(i) => ClosingShell(i)).(table := table)
    case Wake(c) =>
      if s.calls[c].acquires || s.calls[c].pc.WaitingReady? then s.Goto(c, Entering)
      else s.Goto(c, Returned(Released))
    case StartReturns(c, ok) =>
      if ok then
        s.Goto(c, ShellStarted(s.calls[c].pc.slot, Some(|s.sessions|)))
         .(sessions := s.sessions + [s.calls[c].workspace])
      else s.Goto(c, ShellStarted(s.calls[c].pc.slot, None))
    case InstallSession(c) =>
      var pc := s.calls[c].pc;
      s.Goto(c, Returned(if pc.started.Some? then Session(pc.started.value) else Failed))
       .(table := s.table.Install(pc.slot, pc.started))
    case CloseReturns(c) =>
      var pc := s.calls[c].pc;
      var session := s.table.slots[pc.slot].session;
      s.Goto(c, ShellClosed(pc.slot)).(closed := if session.Some? then s.closed + {session.value} else s.closed)
    case RemoveSlot(c) =>
      s.Goto(c, Returned(Released)).(table := s.table.FinishRelease(s.calls[c].pc.slot))
    case SessionCloses(id) => s.(closed := s.closed + {id})
  }

  predicate IsRun(s: State, steps: seq<Step>)
    decreases |steps|
  {
    steps == [] || (Enabled(s, steps[0]) && IsRun(Apply(s, steps[0]), steps[1..]))
  }

  function Run(s: State, steps: seq<Step>): State
    requires IsRun(s, steps)
    decreases |steps|
  {
    if steps == [] then s else Run(Apply(s, steps[0]), steps[1..])
  }

  // ----- The invariant

  predicate IsStarter(call: Call, i: nat) {
    call.pc == StartingShell(i) || (call.pc.ShellStarted? && call.pc.slot == i)
  }

  predicate IsCloser(call: Call, i: nat) {
    call.pc == ClosingShell(i) || call.pc == ShellClosed(i)
  }

  predicate SessionOf(s: State, session: Option<nat>, w: string) {
    session.Some? && session.value < |s.sessions| && s.sessions[session.value] == w
  }

  ghost predicate SlotOk(s: State, i: nat)
    requires i < |s.table.slots|
  {
    var slot := s.table.slots[i];
    match slot.state
    case Starting =>
      && slot.session.None? && slot.releasedCloses == 0 && slot.readyCloses <= 1
      && (s.table.IsCurrent(i) <==> slot.readyCloses == 0)
      && (slot.readyCloses == 0 ==> slot.owner < |s.calls| && IsStarter(s.calls[slot.owner], i))
    case Active =>
      && SessionOf(s, slot.session, slot.workspace) && slot.readyCloses == 1 && slot.releasedCloses == 0
      && (!s.table.IsCurrent(i) ==> slot.session.value in s.closed)
    case Releasing =>
      && SessionOf(s, slot.session, slot.workspace) && slot.readyCloses == 1 && slot.releasedCloses <= 1
      && (s.table.IsCurrent(i) <==> slot.releasedCloses == 0)
      && (slot.releasedCloses == 0 ==> slot.owner < |s.calls| && IsCloser(s.calls[slot.owner], i))
      && (slot.releasedCloses == 1 ==> slot.session.value in s.closed)
  }

  ghost predicate CallOk(s: State, c: nat)
    requires c < |s.calls|
  {
    var call := s.calls[c];
    match call.pc
    case Entering => true
    case Returned(_) => true
    case WaitingReady(i) => i < |s.table.slots| && s.table.slots[i].workspace == call.workspace
    case WaitingReleased(i) =>
      && i < |s.table.slots| && s.table.slots[i].workspace == call.workspace
      && s.table.slots[i].state == Releasing
    case StartingShell(i) => Owns(s, c, i, Starting)
    case ShellStarted(i, started) =>
      && Owns(s, c, i, Starting)
      && (started.Some? ==> SessionOf(s, started, call.workspace))
    case ClosingShell(i) => Owns(s, c, i, Releasing)
    case ShellClosed(i) =>
      && Owns(s, c, i, Releasing)
      && s.table.slots[i].session.Some? && s.table.slots[i].session.value in s.closed
  }

  /** Call `c` put slot `i` into `state`, and the slot is still there and still in that state. */
  ghost predicate Owns(s: State, c: nat, i: nat, state: SlotState)
    requires c < |s.calls|
  {
    && s.calls[c].acquires == (state == Starting)
    && i < |s.table.slots|
    && s.table.slots[i].workspace == s.calls[c].workspace
    && s.table.slots[i].state == state && s.table.slots[i].owner == c
    && s.table.IsCurrent(i)
  }

  /** The session in the workspace's slot, or in the hands of the call that is starting it. */
  function Held(s: State, w: string): Option<nat> {
    if w !in s.table.current || s.table.current[w] >= |s.table.slots| then None
    else
      var slot := s.table.slots[s.table.current[w]];
      if slot.state != Starting then slot.session
      else if slot.owner < |s.calls| && s.calls[slot.owner].pc.ShellStarted?
              && s.calls[slot.owner].pc.slot == s.table.current[w]
      then s.calls[slot.owner].pc.started
      else None
  }

  ghost predicate Inv(s: State) {
    && s.table.Indexed()
    && (forall w | w in s.table.current :: s.table.slots[s.table.current[w]].workspace == w)
    && (forall i | 0 <= i < |s.table.slots| :: SlotOk(s, i))
    && (forall c | 0 <= c < |s.calls| :: CallOk(s, c))
    && (forall id | 0 <= id < |s.sessions| :: s.IsOpen(id) ==> Held(s, s.sessions[id]) == Some(id))
  }

  /** Steps that change the program counter of a call that owns no slot, and nothing else. */
  lemma GotoKeepsInv(s: State, c: nat, pc: Pc)
    requires Inv(s) && c < |s.calls|
    requires s.calls[c].pc.Entering? || s.calls[c].pc.WaitingReady? || s.calls[c].pc.WaitingReleased?
    requires CallOk(s.Goto(c, pc), c)
    requires !pc.StartingShell? && !pc.ShellStarted? && !pc.ClosingShell? && !pc.ShellClosed?
    ensures Inv(s.Goto(c, pc))
  {
    var s' := s.Goto(c, pc);
    forall i | 0 <= i < |s'.table.slots|
      ensures SlotOk(s', i)
    {
      assert SlotOk(s, i);
    }
    forall d | 0 <= d < |s'.calls|
      ensures CallOk(s', d)
    {
      assert CallOk(s, d);
    }
    forall w
      ensures Held(s', w) == Held(s, w)
    {
    }
  }

  lemma CallKeepsInv(s: State, acquires: bool, w: string)
    requires Inv(s)
    ensures Inv(s.(calls := s.calls + [Call(acquires, w, Entering)]))
  {
    var s' := s.(calls := s.calls + [Call(acquires, w, Entering)]);
    forall i | 0 <= i < |s'.table.slots|
      ensures SlotOk(s', i)
    {
      assert SlotOk(s, i);
    }
    forall d | 0 <= d < |s'.calls|
      ensures CallOk(s', d)
    {
      if d < |s.calls| {
        assert CallOk(s, d);
      }
    }
    HeldWithMoreCalls(s, s');
  }

  lemma HeldWithMoreCalls(s: State, s': State)
    requires Inv(s)
    requires s'.table == s.table && |s.calls| < |s'.calls| && s'.calls[..|s.calls|] == s.calls
    ensures forall w :: Held(s', w) == Held(s, w)
  {
    forall w
      ensures Held(s', w) == Held(s, w)
    {
      if w in s.table.current {
        var i := s.table.current[w];
        assert SlotOk(s, i) && s.table.IsCurrent(i);
        assert s.table.slots[i].owner < |s.calls| ==> s'.calls[s.table.slots[i].owner] == s.calls[s.table.slots[i].owner];
      }
    }
  }

  lemma SessionClosesKeepsInv(s: State, id: nat)
    requires Inv(s)
    ensures Inv(s.(closed := s.closed + {id}))
  {
    var s' := s.(closed := s.closed + {id});
    forall i | 0 <= i < |s'.table.slots|
      ensures SlotOk(s', i)
    {
      assert SlotOk(s, i);
    }
    forall d | 0 <= d < |s'.calls|
      ensures CallOk(s', d)
    {
      assert CallOk(s, d);
    }
    forall w
      ensures Held(s', w) == Held(s, w)
    {
    }
  }

  lemma StartReturnsKeepsInv(s: State, c: nat, ok: bool)
    requires Inv(s) && Enabled(s, StartReturns(c, ok))
    ensures Inv(Apply(s, StartReturns(c, ok)))
  {
    var s' := Apply(s, StartReturns(c, ok));
    var i, w := s.calls[c].pc.slot, s.calls[c].workspace;
    assert CallOk(s, c);
    forall k | 0 <= k < |s'.table.slots|
      ensures SlotOk(s', k)
    {
      assert SlotOk(s, k);
    }
    forall d | 0 <= d < |s'.calls|
      ensures CallOk(s', d)
    {
      assert CallOk(s, d);
    }
    forall v | v != w
      ensures Held(s', v) == Held(s, v)
    {
      if v in s.table.current {
        assert s.table.slots[s.table.current[v]].workspace == v;
        assert SlotOk(s, s.table.current[v]);
      }
    }
    assert Held(s, w) == None;
    forall id | 0 <= id < |s'.sessions| && s'.IsOpen(id)
      ensures Held(s', s'.sessions[id]) == Some(id)
    {
      if id < |s.sessions| {
        assert s.IsOpen(id);
      }
    }
  }

  lemma NewSlotKeepsSlot(s: State, c: nat, k: nat)
    requires Inv(s) && Enabled(s, Enter(c)) && s.calls[c].acquires
    requires s.table.EnterAcquire(s.calls[c].workspace, s.closed, c).1.StartIn?
    requires k < |Apply(s, Enter(c)).table.slots|
    ensures SlotOk(Apply(s, Enter(c)), k)
  {
    var w := s.calls[c].workspace;
    if k < |s.table.slots| {
      assert SlotOk(s, k);
      assert s.table.slots[k].workspace in s.table.current ==>
          s.table.slots[s.table.current[s.table.slots[k].workspace]].workspace == s.table.slots[k].workspace;
    }
  }

  lemma NewSlotKeepsCall(s: State, c: nat, d: nat)
    requires Inv(s) && Enabled(s, Enter(c)) && s.calls[c].acquires
    requires s.table.EnterAcquire(s.calls[c].workspace, s.closed, c).1.StartIn?
    requires d < |s.calls|
    ensures d < |Apply(s, Enter(c)).calls| && CallOk(Apply(s, Enter(c)), d)
  {
    assert CallOk(s, d);
    if s.calls[c].workspace in s.table.current {
      assert SlotOk(s, s.table.current[s.calls[c].workspace]);
    }
  }

  lemma NewSlotKeepsHeld(s: State, c: nat, v: string)
    requires Inv(s) && Enabled(s, Enter(c)) && s.calls[c].acquires
    requires s.table.EnterAcquire(s.calls[c].workspace, s.closed, c).1.StartIn?
    requires v != s.calls[c].workspace
    ensures Held(Apply(s, Enter(c)), v) == Held(s, v)
  {
    if v in s.table.current {
      assert SlotOk(s, s.table.current[v]);
    }
  }

  lemma NewSlotKeepsInv(s: State, c: nat)
    requires Inv(s) && Enabled(s, Enter(c)) && s.calls[c].acquires
    requires s.table.EnterAcquire(s.calls[c].workspace, s.closed, c).1.StartIn?
    ensures Inv(Apply(s, Enter(c)))
  {
    var s', w := Apply(s, Enter(c)), s.calls[c].workspace;
    forall k | 0 <= k < |s'.table.slots|
      ensures SlotOk(s', k)
    {
      NewSlotKeepsSlot(s, c, k);
    }
    forall d | 0 <= d < |s'.calls|
      ensures CallOk(s', d)
    {
      NewSlotKeepsCall(s, c, d);
    }
    forall id | 0 <= id < |s'.sessions| && s'.IsOpen(id)
      ensures Held(s', s'.sessions[id]) == Some(id)
    {
      assert s.IsOpen(id);
      if w in s.table.current {
        assert SlotOk(s, s.table.current[w]);
      }
      if s.sessions[id] != w {
        NewSlotKeepsHeld(s, c, s.sessions[id]);
      }
    }
  }

  lemma CloseInKeepsInv(s: State, c: nat)
    requires Inv(s) && Enabled(s, Enter(c)) && !s.calls[c].acquires
    requires s.table.EnterRelease(s.calls[c].workspace, c).1.CloseIn?
    ensures Inv(Apply(s, Enter(c)))
  {
    var s' := Apply(s, Enter(c));
    var w := s.calls[c].workspace;
    var i := s.table.current[w];
    assert SlotOk(s, i) && s.table.slots[i].workspace == w;
    forall k | 0 <= k < |s'.table.slots|
      ensures SlotOk(s', k)
    {
      assert SlotOk(s, k);
    }
    forall d | 0 <= d < |s'.calls|
      ensures CallOk(s', d)
    {
      assert CallOk(s, d);
    }
    forall v
      ensures Held(s', v) == Held(s, v)
    {
      if v in s.table.current {
        assert SlotOk(s, s.table.current[v]);
      }
    }
  }

  lemma InstallKeepsHeld(s: State, c: nat, v: string)
    requires Inv(s) && Enabled(s, InstallSession(c))
    ensures Held(Apply(s, InstallSession(c)), v) == Held(s, v)
  {
    var i := s.calls[c].pc.slot;
    assert CallOk(s, c) && SlotOk(s, i);
    if v in s.table.current {
      assert s.table.slots[s.table.current[v]].workspace == v;
      assert SlotOk(s, s.table.current[v]);
    }
  }

  lemma InstallKeepsSlot(s: State, c: nat, k: nat)
    requires Inv(s) && Enabled(s, InstallSession(c)) && k < |s.table.slots|
    ensures k < |Apply(s, InstallSession(c)).table.slots| && SlotOk(Apply(s, InstallSession(c)), k)
  {
    assert CallOk(s, c) && SlotOk(s, k);
  }

  lemma InstallKeepsInv(s: State, c: nat)
    requires Inv(s) && Enabled(s, InstallSession(c))
    ensures Inv(Apply(s, InstallSession(c)))
  {
    var s' := Apply(s, InstallSession(c));
    assert CallOk(s, c) && SlotOk(s, s.calls[c].pc.slot);
    forall k | 0 <= k < |s'.table.slots|
      ensures SlotOk(s', k)
    {
      InstallKeepsSlot(s, c, k);
    }
    forall d | 0 <= d < |s'.calls|
      ensures CallOk(s', d)
    {
      assert CallOk(s, d);
    }
    forall id | 0 <= id < |s'.sessions| && s'.IsOpen(id)
      ensures Held(s', s'.sessions[id]) == Some(id)
    {
      assert s.IsOpen(id);
      InstallKeepsHeld(s, c, s.sessions[id]);
    }
  }

  lemma CloseReturnsKeepsInv(s: State, c: nat)
    requires Inv(s) && Enabled(s, CloseReturns(c))
    ensures Inv(Apply(s, CloseReturns(c)))
  {
    var s' := Apply(s, CloseReturns(c));
    var i := s.calls[c].pc.slot;
    assert CallOk(s, c) && SlotOk(s, i);
    forall k | 0 <= k < |s'.table.slots|
      ensures SlotOk(s', k)
    {
      assert SlotOk(s, k);
    }
    forall d | 0 <= d < |s'.calls|
      ensures CallOk(s', d)
    {
      assert CallOk(s, d);
    }
    forall v
      ensures Held(s', v) == Held(s, v)
    {
      if v in s.table.current {
        assert SlotOk(s, s.table.current[v]);
      }
    }
    forall id | 0 <= id < |s'.sessions| && s'.IsOpen(id)
      ensures Held(s', s'.sessions[id]) == Some(id)
    {
      assert s.IsOpen(id);
    }
  }

  lemma RemoveKeepsInv(s: State, c: nat)
    requires Inv(s) && Enabled(s, RemoveSlot(c))
    ensures Inv(Apply(s, RemoveSlot(c)))
  {
    var s' := Apply(s, RemoveSlot(c));
    var i, w := s.calls[c].pc.slot, s.calls[c].workspace;
    assert CallOk(s, c) && SlotOk(s, i);
    forall k | 0 <= k < |s'.table.slots|
      ensures SlotOk(s', k)
    {
      assert SlotOk(s, k);
    }
    forall d | 0 <= d < |s'.calls|
      ensures CallOk(s', d)
    {
      assert CallOk(s, d);
    }
    forall v | v != w
      ensures Held(s', v) == Held(s, v)
    {
      if v in s.table.current {
        assert s.table.slots[s.table.current[v]].workspace == v;
        assert SlotOk(s, s.table.current[v]);
      }
    }
    forall id | 0 <= id < |s'.sessions| && s'.IsOpen(id)
      ensures Held(s', s'.sessions[id]) == Some(id)
    {
      assert s.IsOpen(id);
    }
  }

  lemma EnterKeepsInv(s: State, c: nat)
    requires Inv(s) && Enabled(s, Enter(c))
    ensures Inv(Apply(s, Enter(c)))
  {
    var s' := Apply(s, Enter(c));
    if s.calls[c].acquires {
      var (table, decision) := s.table.EnterAcquire(s.calls[c].workspace, s.closed, c);
      if decision.StartIn? {
        NewSlotKeepsInv(s, c);
      } else {
        assert s' == s.Goto(c, s'.calls[c].pc);
        GotoKeepsInv(s, c, s'.calls[c].pc);
      }
    } else {
      var (table, decision) := s.table.EnterRelease(s.calls[c].workspace, c);
      if decision.CloseIn? {
        CloseInKeepsInv(s, c);
      } else {
        assert s' == s.Goto(c, s'.calls[c].pc);
        GotoKeepsInv(s, c, s'.calls[c].pc);
      }
    }
  }

  lemma StepKeepsInv(s: State, step: Step)
    requires Inv(s) && Enabled(s, step)
    ensures Inv(Apply(s, step))
  {
    match step
    case CallAcquire(w) => CallKeepsInv(s, true, w);
    case CallRelease(w) => CallKeepsInv(s, false, w);
    case GiveUp(c) => GotoKeepsInv(s, c, Returned(Failed));
    case Enter(c) => EnterKeepsInv(s, c);
    case Wake(c) => GotoKeepsInv(s, c, Apply(s, step).calls[c].pc);
    case StartReturns(c, ok) => StartReturnsKeepsInv(s, c, ok);
    case InstallSession(c) => InstallKeepsInv(s, c);
    case CloseReturns(c) => CloseReturnsKeepsInv(s, c);
    case RemoveSlot(c) => RemoveKeepsInv(s, c);
    case SessionCloses(id) => SessionClosesKeepsInv(s, id);
  }

  lemma {:induction false} RunKeepsInv(s: State, steps: seq<Step>)
    requires Inv(s) && IsRun(s, steps)
    ensures Inv(Run(s, steps))
    decreases |steps|
  {
    if steps != [] {
      StepKeepsInv(s, steps[0]);
      RunKeepsInv(Apply(s, steps[0]), steps[1..]);
    }
  }

  // ----- What every run guarantees

  /** A workspace never has two open sessions; the open one is in its slot or held by the slot's starter. */
  lemma AtMostOneOpenSession(steps: seq<Step>, a: nat, b: nat)
    requires IsRun(START, steps)
    requires Run(START, steps).IsOpen(a) && Run(START, steps).IsOpen(b)
    ensures var s := Run(START, steps);
            && Held(s, s.sessions[a]) == Some(a)
            && (s.sessions[a] == s.sessions[b] ==> a == b)
  {
    RunKeepsInv(START, steps);
  }

  /** When a call comes back from starting or closing a shell, its slot is still the current one: the identity tests always succeed. */
  lemma SlotsAreOwned(steps: seq<Step>, c: nat)
    requires IsRun(START, steps) && c < |Run(START, steps).calls|
    ensures var s := Run(START, steps);
            var pc := s.calls[c].pc;
            && (pc.StartingShell? || pc.ShellStarted? ==> Owns(s, c, pc.slot, Starting))
            && (pc.ClosingShell? || pc.ShellClosed? ==> Owns(s, c, pc.slot, Releasing))
  {
    RunKeepsInv(START, steps);
    assert CallOk(Run(START, steps), c);
  }

  /** Only its owner changes a slot that is starting or releasing, or takes it out of the table. */
  lemma OthersLeaveOwnedSlotsAlone(s: State, step: Step, c: nat, i: nat, state: SlotState)
    requires Inv(s) && Enabled(s, step)
    requires c < |s.calls| && Owns(s, c, i, state) && (IsStarter(s.calls[c], i) || IsCloser(s.calls[c], i))
    requires step != InstallSession(c) && step != RemoveSlot(c)
    requires state != Active
    ensures var s' := Apply(s, step);
            && i < |s'.table.slots| && s'.table.slots[i] == s.table.slots[i] && s'.table.IsCurrent(i)
  {
    match step
    case InstallSession(d) => assert CallOk(s, d);
    case RemoveSlot(d) => assert CallOk(s, d);
    case _ =>
  }

  /** Each of a slot's two channels is closed at most once, and exactly once when the slot has left that state. */
  lemma ChannelsCloseOnce(steps: seq<Step>, i: nat)
    requires IsRun(START, steps) && i < |Run(START, steps).table.slots|
    ensures var s := Run(START, steps);
            var slot := s.table.slots[i];
            && slot.readyCloses <= 1 && slot.releasedCloses <= 1
            && (slot.readyCloses == 1 <==> slot.state != Starting || !s.table.IsCurrent(i))
            && (slot.releasedCloses == 1 <==> slot.state == Releasing && !s.table.IsCurrent(i))
  {
    RunKeepsInv(START, steps);
    assert SlotOk(Run(START, steps), i);
  }

  /** The channel that a waiting call waits for is closed. */
  predicate MayWake(s: State, c: nat) {
    Enabled(s, Wake(c))
  }

  /** A call that waits in vain waits for another call that is starting or closing the shell of the same workspace. */
  lemma WaitersHaveAnOwner(steps: seq<Step>, c: nat)
    requires IsRun(START, steps) && c < |Run(START, steps).calls|
    requires var pc := Run(START, steps).calls[c].pc; pc.WaitingReady? || pc.WaitingReleased?
    requires !MayWake(Run(START, steps), c)
    ensures var s := Run(START, steps);
            var i := s.calls[c].pc.slot;
            && i < |s.table.slots|
            && var owner := s.table.slots[i].owner;
            && owner < |s.calls| && s.calls[owner].workspace == s.calls[c].workspace
            && if s.calls[c].pc.WaitingReady? then IsStarter(s.calls[owner], i) else IsCloser(s.calls[owner], i)
  {
    var s := Run(START, steps);
    RunKeepsInv(START, steps);
    assert CallOk(s, c);
    var i := s.calls[c].pc.slot;
    assert SlotOk(s, i);
    assert CallOk(s, s.table.slots[i].owner);
  }

  /** Once the shell has been started, or has failed to start, the starter's own next step wakes everyone who waits for it. */
  lemma InstallingWakesWaiters(s: State, owner: nat, waiter: nat)
    requires Inv(s) && Enabled(s, InstallSession(owner))
    requires waiter < |s.calls| && s.calls[waiter].pc == WaitingReady(s.calls[owner].pc.slot)
    ensures MayWake(Apply(s, InstallSession(owner)), waiter)
  {
    assert CallOk(s, owner);
  }

  /** Once the shell has been closed, the closer's own next step wakes everyone who waits for it. */
  lemma RemovingWakesWaiters(s: State, owner: nat, waiter: nat)
    requires Inv(s) && Enabled(s, RemoveSlot(owner))
    requires waiter < |s.calls| && s.calls[waiter].pc == WaitingReleased(s.calls[owner].pc.slot)
    ensures MayWake(Apply(s, RemoveSlot(owner)), waiter)
  {
    assert CallOk(s, owner);
  }

  /** When a Release takes its slot out of the table, the workspace has no open session. */
  lemma ReleaseLeavesNothingOpen(s: State, c: nat, id: nat)
    requires Inv(s) && Enabled(s, RemoveSlot(c))
    requires Apply(s, RemoveSlot(c)).IsOpen(id)
    ensures s.sessions[id] != s.calls[c].workspace
  {
    RemoveKeepsInv(s, c);
    assert CallOk(s, c);
  }

  /** A Release that waited for another one returns only after the session it saw has been closed. */
  lemma ReleasesReturnAfterTheClose(s: State, c: nat)
    requires Inv(s) && Enabled(s, Wake(c))
    requires Apply(s, Wake(c)).calls[c].pc == Returned(Released)
    ensures var slot := s.table.slots[s.calls[c].pc.slot];
            slot.workspace == s.calls[c].workspace && slot.session.Some? && slot.session.value in s.closed
  {
    assert CallOk(s, c) && SlotOk(s, s.calls[c].pc.slot);
  }

  /** An Acquire that finds a session hands out one that is open, of the right workspace. */
  lemma ReusedSessionsAreOpen(s: State, c: nat)
    requires Inv(s) && Enabled(s, Enter(c)) && s.calls[c].acquires
    requires Apply(s, Enter(c)).calls[c].pc.Returned?
    ensures var s' := Apply(s, Enter(c));
            var outcome := s'.calls[c].pc.outcome;
            && outcome.Session? && s'.IsOpen(outcome.id)
            && s'.sessions[outcome.id] == s.calls[c].workspace && Held(s', s.calls[c].workspace) == Some(outcome.id)
  {
    var w := s.calls[c].workspace;
    assert SlotOk(s, s.table.current[w]);
  }

  // ----- What a call does at the top of its loop

  /** The call is starting or closing the shell of workspace `w`. */
  predicate IsWorking(call: Call, w: string) {
    call.workspace == w && (call.pc.StartingShell? || call.pc.ShellStarted? || call.pc.ClosingShell? || call.pc.ShellClosed?)
  }

  ghost predicate IsBusy(s: State, w: string) {
    exists c :: 0 <= c < |s.calls| && IsWorking(s.calls[c], w)
  }

  ghost predicate HasOpenSession(s: State, w: string) {
    exists id: nat :: s.IsOpen(id) && s.sessions[id] == w
  }

  /** Someone is starting or closing the shell of `w` exactly while its slot is in one of those states. */
  lemma BusyIff(s: State, w: string)
    requires Inv(s)
    ensures IsBusy(s, w) <==> w in s.table.current && s.table.slots[s.table.current[w]].state != Active
  {
    if IsBusy(s, w) {
      var c :| 0 <= c < |s.calls| && IsWorking(s.calls[c], w);
      assert CallOk(s, c);
    } else if w in s.table.current && s.table.slots[s.table.current[w]].state != Active {
      var i := s.table.current[w];
      assert SlotOk(s, i);
      assert CallOk(s, s.table.slots[i].owner) && IsWorking(s.calls[s.table.slots[i].owner], w);
    }
  }

  /** The session in a slot that is in use is the one that is open, if any is. */
  lemma OpenSessionIff(s: State, w: string)
    requires Inv(s) && !IsBusy(s, w)
    ensures HasOpenSession(s, w) <==> s.table.Usable(w, s.closed).Some?
    ensures HasOpenSession(s, w) ==> Held(s, w) == s.table.Usable(w, s.closed)
  {
    BusyIff(s, w);
    if HasOpenSession(s, w) {
      var id: nat :| s.IsOpen(id) && s.sessions[id] == w;
      assert Held(s, w) == Some(id);
    }
    if s.table.Usable(w, s.closed).Some? {
      var id := s.table.Usable(w, s.closed).value;
      assert SlotOk(s, s.table.current[w]);
      assert s.IsOpen(id) && s.sessions[id] == w;
    }
  }

  /** A call waits exactly if someone is starting or closing the shell, and the wait is not over at once. */
  lemma EnteringWaitsIff(s: State, c: nat)
    requires Inv(s) && Enabled(s, Enter(c))
    ensures var after := Apply(s, Enter(c));
            && (IsBusy(s, s.calls[c].workspace) <==> after.calls[c].pc.WaitingReady? || after.calls[c].pc.WaitingReleased?)
            && (IsBusy(s, s.calls[c].workspace) ==> !MayWake(after, c))
  {
    var w := s.calls[c].workspace;
    BusyIff(s, w);
    if w in s.table.current {
      assert SlotOk(s, s.table.current[w]);
    }
  }

  /**
   What an Acquire does: it waits exactly while someone starts or closes the shell; otherwise it
   returns the open session, and starts a shell exactly if there is none.
   */
  lemma AcquireEnters(steps: seq<Step>, c: nat, id: nat)
    requires IsRun(START, steps) && Enabled(Run(START, steps), Enter(c)) && Run(START, steps).calls[c].acquires
    ensures var s := Run(START, steps);
            var w, pc := s.calls[c].workspace, Apply(s, Enter(c)).calls[c].pc;
            && (pc.WaitingReady? || pc.WaitingReleased? <==> IsBusy(s, w))
            && (pc == Returned(Session(id)) <==> !IsBusy(s, w) && s.IsOpen(id) && s.sessions[id] == w)
            && (pc.StartingShell? <==> !IsBusy(s, w) && !HasOpenSession(s, w))
  {
    var s := Run(START, steps);
    var w := s.calls[c].workspace;
    RunKeepsInv(START, steps);
    EnteringWaitsIff(s, c);
    if !IsBusy(s, w) {
      OpenSessionIff(s, w);
      if Apply(s, Enter(c)).calls[c].pc.Returned? {
        ReusedSessionsAreOpen(s, c);
      }
    }
  }

  /**
   What a Release does: it waits exactly while someone starts or closes the shell; otherwise it
   closes the slot's shell, and returns at once only if the workspace has no slot.
   */
  lemma ReleaseEnters(steps: seq<Step>, c: nat)
    requires IsRun(START, steps) && Enabled(Run(START, steps), Enter(c)) && !Run(START, steps).calls[c].acquires
    ensures var s := Run(START, steps);
            var w, pc := s.calls[c].workspace, Apply(s, Enter(c)).calls[c].pc;
            && (pc.WaitingReady? || pc.WaitingReleased? <==> IsBusy(s, w))
            && (pc.ClosingShell? <==> !IsBusy(s, w) && w in s.table.current)
            && (pc == Returned(Released) <==> w !in s.table.current)
  {
    RunKeepsInv(START, steps);
    EnteringWaitsIff(Run(START, steps), c);
    BusyIff(Run(START, steps), Run(START, steps).calls[c].workspace);
  }

  // ----- What a Release closes

  /** A Release that returns at once leaves no session of its workspace open. */
  lemma ReturningAtOnceLeavesNothingOpen(s: State, c: nat, id: nat)
    requires Inv(s) && Enabled(s, Enter(c)) && !s.calls[c].acquires
    requires Apply(s, Enter(c)).calls[c].pc.Returned?
    requires s.IsOpen(id)
    ensures s.sessions[id] != s.calls[c].workspace
  {
    assert s.IsOpen(id);
  }

  /** The call is a Release of the session's workspace. */
  predicate Concerns(s: State, c: nat, id: nat) {
    && c < |s.calls| && !s.calls[c].acquires
    && id < |s.sessions| && s.sessions[id] == s.calls[c].workspace
  }

  /** The session is closed, or the Release has not returned, and if it waits for another one, that one is closing the session. */
  predicate ClosedOrUnderway(s: State, c: nat, id: nat)
    requires c < |s.calls|
  {
    id in s.closed ||
    match s.calls[c].pc
    case Returned(_) => false
    case WaitingReleased(i) => i < |s.table.slots| && s.table.slots[i].session == Some(id)
    case _ => true
  }

  lemma EnteringStaysUnderway(s: State, c: nat, id: nat)
    requires Inv(s) && Enabled(s, Enter(c)) && Concerns(s, c, id)
    ensures Concerns(Apply(s, Enter(c)), c, id) && ClosedOrUnderway(Apply(s, Enter(c)), c, id)
  {
    assert id in s.closed || s.IsOpen(id);
  }

  lemma WakingStaysUnderway(s: State, c: nat, id: nat)
    requires Inv(s) && Enabled(s, Wake(c)) && Concerns(s, c, id) && ClosedOrUnderway(s, c, id)
    ensures Concerns(Apply(s, Wake(c)), c, id) && ClosedOrUnderway(Apply(s, Wake(c)), c, id)
  {
    assert CallOk(s, c);
    assert s.calls[c].pc.WaitingReleased? ==> SlotOk(s, s.calls[c].pc.slot);
  }

  lemma RemovingStaysUnderway(s: State, c: nat, id: nat)
    requires Inv(s) && Enabled(s, RemoveSlot(c)) && Concerns(s, c, id)
    ensures Concerns(Apply(s, RemoveSlot(c)), c, id) && ClosedOrUnderway(Apply(s, RemoveSlot(c)), c, id)
  {
    assert CallOk(s, c);
    assert id in s.closed || s.IsOpen(id);
  }

  /** A slot that is releasing keeps its session, and a step of another call leaves this one where it is. */
  lemma OthersLeaveItUnderway(s: State, step: Step, c: nat, id: nat)
    requires Inv(s) && Enabled(s, step) && Concerns(s, c, id) && ClosedOrUnderway(s, c, id)
    requires step != Enter(c) && step != Wake(c) && step != RemoveSlot(c)
    ensures Concerns(Apply(s, step), c, id) && ClosedOrUnderway(Apply(s, step), c, id)
  {
    assert CallOk(s, c);
    match step
    case InstallSession(d) => assert CallOk(s, d);
    case Enter(d) => EnteringKeepsReleasing(s, d, c);
    case _ =>
  }

  lemma EnteringKeepsReleasing(s: State, d: nat, c: nat)
    requires Inv(s) && Enabled(s, Enter(d)) && c < |s.calls| && c != d
    ensures var after := Apply(s, Enter(d));
            && c < |after.calls| && after.calls[c] == s.calls[c] && after.sessions == s.sessions && after.closed == s.closed
            && forall i | 0 <= i < |s.table.slots| && s.table.slots[i].state == Releasing ::
                 i < |after.table.slots| && after.table.slots[i].session == s.table.slots[i].session
  {
  }

  lemma StepStaysUnderway(s: State, step: Step, c: nat, id: nat)
    requires Inv(s) && Enabled(s, step) && Concerns(s, c, id) && ClosedOrUnderway(s, c, id)
    ensures Concerns(Apply(s, step), c, id) && ClosedOrUnderway(Apply(s, step), c, id)
  {
    if step == Enter(c) {
      EnteringStaysUnderway(s, c, id);
    } else if step == Wake(c) {
      WakingStaysUnderway(s, c, id);
    } else if step == RemoveSlot(c) {
      RemovingStaysUnderway(s, c, id);
    } else {
      OthersLeaveItUnderway(s, step, c, id);
    }
  }

  lemma {:induction false} RunStaysUnderway(s: State, steps: seq<Step>, c: nat, id: nat)
    requires Inv(s) && IsRun(s, steps) && Concerns(s, c, id) && ClosedOrUnderway(s, c, id)
    ensures Concerns(Run(s, steps), c, id) && ClosedOrUnderway(Run(s, steps), c, id)
    decreases |steps|
  {
    if steps != [] {
      StepKeepsInv(s, steps[0]);
      StepStaysUnderway(s, steps[0], c, id);
      RunStaysUnderway(Apply(s, steps[0]), steps[1..], c, id);
    }
  }

  /** A session that is open when a Release of its workspace begins is closed when that Release has returned, whoever started it. */
  lemma ReleasesCloseWhatTheyFind(steps: seq<Step>, more: seq<Step>, c: nat, id: nat)
    requires IsRun(START, steps) && IsRun(Run(START, steps), more)
    requires Concerns(Run(START, steps), c, id) && Run(START, steps).calls[c].pc == Entering
    ensures var end := Run(Run(START, steps), more);
            c < |end.calls| && (end.calls[c].pc.Returned? ==> id in end.closed)
  {
    RunKeepsInv(START, steps);
    RunStaysUnderway(Run(START, steps), more, c, id);
  }

  // ----- What calls return

  /** The last step of a run. */
  lemma {:induction false} LastStep(s: State, steps: seq<Step>)
    requires IsRun(s, steps) && steps != []
    ensures var init := steps[..|steps| - 1];
            && IsRun(s, init) && Enabled(Run(s, init), steps[|steps| - 1])
            && Run(s, steps) == Apply(Run(s, init), steps[|steps| - 1])
    decreases |steps|
  {
    var init := steps[..|steps| - 1];
    if |steps| == 1 {
      assert steps[1..] == [] && init == [];
    } else {
      LastStep(Apply(s, steps[0]), steps[1..]);
      assert init[0] == steps[0] && init[1..] == steps[1..][..|steps| - 2];
    }
  }

  /** What the call has returned, if it has, and the start that it is coming back from. */
  ghost predicate ReturnOk(s: State, steps: seq<Step>, c: nat)
    requires c < |s.calls|
  {
    var call := s.calls[c];
    match call.pc
    case ShellStarted(_, None) => StartReturns(c, false) in steps
    case Returned(Session(id)) => call.acquires && SessionOf(s, Some(id), call.workspace)
    case Returned(Failed) => call.acquires && (GiveUp(c) in steps || StartReturns(c, false) in steps)
    case Returned(Released) => !call.acquires
    case _ => true
  }

  lemma StepReturnsOk(s: State, steps: seq<Step>, step: Step, c: nat)
    requires Inv(s) && Enabled(s, step) && c < |Apply(s, step).calls|
    requires c < |s.calls| ==> ReturnOk(s, steps, c)
    ensures ReturnOk(Apply(s, step), steps + [step], c)
  {
    if c < |s.calls| {
      assert CallOk(s, c);
      if step == Enter(c) && s.calls[c].acquires && Apply(s, step).calls[c].pc.Returned? {
        ReusedSessionsAreOpen(s, c);
      }
    }
  }

  /**
   An Acquire returns a session of its workspace, or it fails, and that only because it gave up or
   its start failed; a Release is just done.
   */
  lemma {:induction false} CallsReturnTheirOutcome(steps: seq<Step>, c: nat)
    requires IsRun(START, steps) && c < |Run(START, steps).calls|
    ensures ReturnOk(Run(START, steps), steps, c)
    decreases |steps|
  {
    if steps != [] {
      var init, last := steps[..|steps| - 1], steps[|steps| - 1];
      LastStep(START, steps);
      RunKeepsInv(START, init);
      if c < |Run(START, init).calls| {
        CallsReturnTheirOutcome(init, c);
      }
      StepReturnsOk(Run(START, init), init, last, c);
      assert init + [last] == steps;
    }
  }
}
