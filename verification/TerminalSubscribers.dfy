/**
 Delivery of terminal output to its subscribers
 (services/runner/internal/engine/terminal_sessions.go, TerminalSession.broadcast, subscribe
 and finish).

 `TerminalSession` holds what the session's mutex protects. In the machine a broadcast keeps
 the mutex while it sends to one subscriber after another, and a send waits for room in the
 subscriber's channel; receiving needs no mutex and may happen at any time.
 */
module TerminalSubscribers {
  import opened Common

  const CAPACITY := 32

  type Chunk = string

  /**
   A subscriber's channel: what waits in it and what was taken from it. `from` and `upTo` are
   history: how much had been broadcast when the subscriber was registered and removed.
   */
  datatype Channel = Channel(queue: seq<Chunk>, received: seq<Chunk>, closes: nat, from: nat, upTo: Option<nat>)
  {
    function Sent(): seq<Chunk> {
      received + queue
    }

    function Close(now: nat): Channel {
      this.(closes := closes + 1, upTo := Some(now))
    }

    function Put(chunk: Chunk): Channel {
      this.(queue := queue + [chunk])
    }
  }

  /** `channels[id]` is the channel of subscriber `id`; `log` is everything broadcast so far. */
  datatype Hub = Hub(subscribers: set<nat>, channels: seq<Channel>, closed: bool, log: seq<Chunk>)
  {
    function Subscribe(): Hub {
      if closed then this
      else this.(subscribers := subscribers + {|channels|}, channels := channels + [Channel([], [], 0, |log|, None)])
    }

    function Unsubscribe(id: nat): Hub {
      if id !in subscribers || id >= |channels| then this
      else this.(subscribers := subscribers - {id}, channels := channels[id := channels[id].Close(|log|)])
    }

    function Finish(): Hub {
      if closed then this
      else this.(closed := true, subscribers := {}, channels := seq(|channels|, id requires 0 <= id < |channels| =>
        if id in subscribers then channels[id].Close(|log|) else channels[id]))
    }

    /** A broadcast that finds room everywhere. */
    function Broadcast(chunk: Chunk): Hub {
      if closed then this
      else this.(log := log + [chunk], channels := seq(|channels|, id requires 0 <= id < |channels| =>
        if id in subscribers then channels[id].Put(chunk) else channels[id]))
    }
  }

  class TerminalSession {
    var subscribers: set<nat>
    var channels: seq<Channel>
    var closed: bool
    var done: bool  // doneOnce
    var log: seq<Chunk>  // history

    ghost function View(): Hub
      reads this
    {
      Hub(subscribers, channels, closed, log)
    }

    ghost predicate Valid()
      reads this
    {
      && done == closed
      && forall id | id in subscribers :: id < |channels|
    }

    constructor ()
      ensures Valid() && View() == Hub({}, [], false, [])
    {
      subscribers := {};
      channels := [];
      closed := false;
      done := false;
      log := [];
    }

    method Subscribe() returns (id: Option<nat>)
      requires Valid()
      modifies this
      ensures Valid() && View() == old(View()).Subscribe()
      ensures id == if old(closed) then None else Some(|old(channels)|)
    {
      if closed {
        return None;
      }
      id := Some(|channels|);
      subscribers := subscribers + {|channels|};
      channels := channels + [Channel([], [], 0, |log|, None)];
    }

    method Unsubscribe(id: nat)
      requires Valid()
      modifies this
      ensures Valid() && View() == old(View()).Unsubscribe(id)
    {
      if id !in subscribers {
        return;
      }
      subscribers := subscribers - {id};
      channels := channels[id := channels[id].Close(|log|)];
    }

    method Finish()
      requires Valid()
      modifies this
      ensures Valid() && View() == old(View()).Finish()
    {
      if done {
        return;
      }
      done := true;
      closed := true;
      while subscribers != {}
        invariant subscribers <= old(subscribers) && |channels| == |old(channels)|
        invariant forall id | id in old(subscribers) :: id < |channels|
        invariant forall id | 0 <= id < |channels| ::
                    channels[id] == if id in old(subscribers) && id !in subscribers then old(channels)[id].Close(|log|)
                                    else old(channels)[id]
        invariant log == old(log) && done && closed
        decreases subscribers
      {
        var id :| id in subscribers;
        subscribers := subscribers - {id};
        channels := channels[id := channels[id].Close(|log|)];
      }
    }

    method Broadcast(chunk: Chunk)
      requires Valid()
      modifies this
      ensures Valid() && View() == old(View()).Broadcast(chunk)
    {
      if closed {
        return;
      }
      log := log + [chunk];
      var remaining := subscribers;
      while remaining != {}
        invariant remaining <= subscribers && |channels| == |old(channels)|
        invariant forall id | 0 <= id < |channels| ::
                    channels[id] == if id in subscribers && id !in remaining then old(channels)[id].Put(chunk)
                                    else old(channels)[id]
        invariant subscribers == old(subscribers) && log == old(log) + [chunk] && !closed && !done
        decreases remaining
      {
        var id :| id in remaining;
        remaining := remaining - {id};
        channels := channels[id := channels[id].Put(chunk)];
      }
    }
  }

  // ----- The machine

  /** `sending` is the set of subscribers that the broadcast holding the mutex still has to serve. */
  datatype State = State(hub: Hub, sending: Option<set<nat>>)

  const START := State(Hub({}, [], false, []), None)

  datatype Step =
    | Subscribe
    | Unsubscribe(id: nat)
    | Finish
    | BroadcastBegins(chunk: Chunk)
    | Send(id: nat)
    | BroadcastEnds
    | Receive(id: nat)

  predicate Enabled(s: State, step: Step) {
    match step
    case Send(id) =>
      && s.sending.Some? && id in s.sending.value && id < |s.hub.channels| && s.hub.log != []
      && |s.hub.channels[id].queue| < CAPACITY
    case BroadcastEnds => s.sending == Some({})
    case Receive(id) => id < |s.hub.channels| && s.hub.channels[id].queue != []
    case _ => s.sending.None?  // these take the mutex
  }

  function Apply(s: State, step: Step): State
    requires Enabled(s, step)
  {
    match step
    case Subscribe => s.(hub := s.hub.Subscribe())
    case Unsubscribe(id) => s.(hub := s.hub.Unsubscribe(id))
    case Finish => s.(hub := s.hub.Finish())
    case BroadcastBegins(chunk) =>
      if s.hub.closed then s
      else State(s.hub.(log := s.hub.log + [chunk]), Some(s.hub.subscribers))
    case Send(id) =>
      var channel := s.hub.channels[id].Put(s.hub.log[|s.hub.log| - 1]);
      State(s.hub.(channels := s.hub.channels[id := channel]), Some(s.sending.value - {id}))
    case BroadcastEnds => s.(sending := None)
    case Receive(id) =>
      var channel := s.hub.channels[id];
      var after := channel.(queue := channel.queue[1..], received := channel.received + [channel.queue[0]]);
      s.(hub := s.hub.(channels := s.hub.channels[id := after]))
  }

  predicate IsRun(s: State, steps: seq<Step>)
    decreases |steps|
  {
    steps == [] || (Enabled(s, steps[0]) && IsRun(Apply(s, steps[0]), steps[1..]))
  }

  function Run(s: State, steps: seq<Step>): State
    requires IsRun(s, steps)
    decreases |steps|
  {
    if steps == [] then s else Run(Apply(s, steps[0]), steps[1..])
  }

  // ----- The invariant

  /** How much of the log the channel should have got by now. */
  function Due(s: State, id: nat): nat
    requires id < |s.hub.channels|
  {
    if s.hub.channels[id].upTo.Some? then s.hub.channels[id].upTo.value
    else if s.sending.Some? && id in s.sending.value && s.hub.log != [] then |s.hub.log| - 1
    else |s.hub.log|
  }

  ghost predicate ChannelOk(s: State, id: nat)
    requires id < |s.hub.channels|
  {
    var channel, log := s.hub.channels[id], s.hub.log;
    && (channel.upTo.None? <==> id in s.hub.subscribers)
    && channel.closes == (if id in s.hub.subscribers then 0 else 1)
    && channel.from <= Due(s, id) <= |log|
    && channel.Sent() == log[channel.from..Due(s, id)]
    && |channel.queue| <= CAPACITY
  }

  ghost predicate Inv(s: State) {
    && (forall id | 0 <= id < |s.hub.channels| :: ChannelOk(s, id))
    && (forall id | id in s.hub.subscribers :: id < |s.hub.channels|)
    && (s.hub.closed ==> s.hub.subscribers == {} && s.sending.None?)
    && (s.sending.Some? ==> s.sending.value <= s.hub.subscribers && s.hub.log != [])
  }

  lemma SendKeepsChannel(s: State, id: nat)
    requires Inv(s) && Enabled(s, Send(id))
    ensures ChannelOk(Apply(s, Send(id)), id)
  {
    assert ChannelOk(s, id);
    var s' := Apply(s, Send(id));
    var channel, log := s.hub.channels[id], s.hub.log;
    var last := |log| - 1;
    assert s'.hub.channels[id].Sent() == channel.Sent() + [log[last]];
    assert log[channel.from..last] + [log[last]] == log[channel.from..|log|];
  }

  lemma ReceiveKeepsSent(channel: Channel)
    requires channel.queue != []
    ensures channel.(queue := channel.queue[1..], received := channel.received + [channel.queue[0]]).Sent() == channel.Sent()
  {
    assert [channel.queue[0]] + channel.queue[1..] == channel.queue;
  }

  lemma LogGrows(s: State, chunk: Chunk, id: nat)
    requires Inv(s) && s.sending.None? && !s.hub.closed && id < |s.hub.channels|
    ensures ChannelOk(Apply(s, BroadcastBegins(chunk)), id)
  {
    assert ChannelOk(s, id);
    var channel, log := s.hub.channels[id], s.hub.log;
    assert (log + [chunk])[channel.from..Due(s, id)] == log[channel.from..Due(s, id)];
  }

  lemma StepKeepsChannels(s: State, step: Step, id: nat)
    requires Inv(s) && Enabled(s, step)
    requires id < |Apply(s, step).hub.channels|
    ensures ChannelOk(Apply(s, step), id)
  {
    if id < |s.hub.channels| {
      assert ChannelOk(s, id);
      match step
      case BroadcastBegins(chunk) => if !s.hub.closed { LogGrows(s, chunk, id); }
      case Send(k) => if k == id { SendKeepsChannel(s, id); }
      case Receive(k) => ReceiveKeepsSent(s.hub.channels[k]);
      case _ =>
    }
  }

  lemma StepKeepsInv(s: State, step: Step)
    requires Inv(s) && Enabled(s, step)
    ensures Inv(Apply(s, step))
  {
    forall id | 0 <= id < |Apply(s, step).hub.channels|
      ensures ChannelOk(Apply(s, step), id)
    {
      StepKeepsChannels(s, step, id);
    }
  }

  lemma {:induction false} RunKeepsInv(s: State, steps: seq<Step>)
    requires Inv(s) && IsRun(s, steps)
    ensures Inv(Run(s, steps))
    decreases |steps|
  {
    if steps != [] {
      StepKeepsInv(s, steps[0]);
      RunKeepsInv(Apply(s, steps[0]), steps[1..]);
    }
  }

  // ----- What every run guarantees

  /**
   What was put on a subscriber's channel is exactly what was broadcast between its registration
   and its removal, or until now; while a broadcast is under way its chunk may still be missing.
   */
  lemma SubscribersGetWhatIsBroadcast(steps: seq<Step>, id: nat)
    requires IsRun(START, steps) && id < |Run(START, steps).hub.channels|
    ensures var s := Run(START, steps);
            var channel := s.hub.channels[id];
            && channel.from <= Due(s, id) <= |s.hub.log|
            && channel.received + channel.queue == s.hub.log[channel.from..Due(s, id)]
            && |channel.queue| <= CAPACITY
            && (channel.upTo.None? && s.sending.None? ==> Due(s, id) == |s.hub.log|)
  {
    RunKeepsInv(START, steps);
    assert ChannelOk(Run(START, steps), id);
  }

  /** Each channel is closed exactly once, when its subscriber is removed. */
  lemma ChannelsCloseOnce(steps: seq<Step>, id: nat)
    requires IsRun(START, steps) && id < |Run(START, steps).hub.channels|
    ensures var s := Run(START, steps);
            && s.hub.channels[id].closes == (if id in s.hub.subscribers then 0 else 1)
            && (s.hub.closed ==> s.hub.channels[id].closes == 1)
  {
    RunKeepsInv(START, steps);
    assert ChannelOk(Run(START, steps), id);
  }

  /** Nothing is sent on a closed channel, and a removed subscriber's share of the log is final. */
  lemma ClosedChannelsAreFinal(s: State, step: Step, id: nat)
    requires Inv(s) && Enabled(s, step)
    requires id < |s.hub.channels| && s.hub.channels[id].closes > 0
    ensures step != Send(id)
    ensures var after := Apply(s, step).hub.channels[id];
            && after.Sent() == s.hub.channels[id].Sent() && after.closes == 1
            && after.upTo == s.hub.channels[id].upTo
  {
    assert ChannelOk(s, id);
    if step == Receive(id) {
      ReceiveKeepsSent(s.hub.channels[id]);
    }
  }

  /** A subscriber that reads its closed channel to the end has got its whole share, in order. */
  lemma DrainedChannelsAreComplete(steps: seq<Step>, id: nat)
    requires IsRun(START, steps) && id < |Run(START, steps).hub.channels|
    requires var channel := Run(START, steps).hub.channels[id]; channel.closes > 0 && channel.queue == []
    ensures var s := Run(START, steps);
            var channel := s.hub.channels[id];
            && channel.upTo.Some? && channel.from <= channel.upTo.value <= |s.hub.log|
            && channel.received == s.hub.log[channel.from..channel.upTo.value]
  {
    var s := Run(START, steps);
    RunKeepsInv(START, steps);
    assert ChannelOk(s, id);
    var channel := s.hub.channels[id];
    assert channel.received + channel.queue == channel.received;
  }

  /** A finished session has no broadcast under way and takes no more subscribers. */
  lemma FinishedSessionsStayEmpty(s: State, step: Step)
    requires Inv(s) && Enabled(s, step) && s.hub.closed
    ensures var s' := Apply(s, step);
            s'.hub.closed && s'.hub.subscribers == {} && s'.hub.log == s.hub.log && |s'.hub.channels| == |s.hub.channels|
  {
  }

  // ----- What the log is

  /** The last step of a run. */
  lemma {:induction false} LastStep(s: State, steps: seq<Step>)
    requires IsRun(s, steps) && steps != []
    ensures var init := steps[..|steps| - 1];
            && IsRun(s, init) && Enabled(Run(s, init), steps[|steps| - 1])
            && Run(s, steps) == Apply(Run(s, init), steps[|steps| - 1])
    decreases |steps|
  {
    var init := steps[..|steps| - 1];
    if |steps| == 1 {
      assert steps[1..] == [] && init == [];
    } else {
      LastStep(Apply(s, steps[0]), steps[1..]);
      assert init[0] == steps[0] && init[1..] == steps[1..][..|steps| - 2];
    }
  }

  predicate HasFinished(steps: seq<Step>) {
    Finish in steps
  }

  /** The chunks broadcast before the session finished, in order. */
  function Chunks(steps: seq<Step>): seq<Chunk>
    decreases |steps|
  {
    if steps == [] then []
    else
      var init, last := steps[..|steps| - 1], steps[|steps| - 1];
      Chunks(init) + if last.BroadcastBegins? && !HasFinished(init) then [last.chunk] else []
  }

  /** The log is what was broadcast before the session finished. */
  lemma {:induction false} LogIsWhatWasBroadcast(steps: seq<Step>)
    requires IsRun(START, steps)
    ensures Run(START, steps).hub.log == Chunks(steps)
    ensures Run(START, steps).hub.closed <==> HasFinished(steps)
    decreases |steps|
  {
    if steps != [] {
      var init, last := steps[..|steps| - 1], steps[|steps| - 1];
      LastStep(START, steps);
      LogIsWhatWasBroadcast(init);
      assert steps == init + [last];
    }
  }

  /** A channel begins where the log is when its subscriber registers, and ends where it is when the subscriber is removed; nothing else moves these marks. */
  lemma MarksAreTheEnds(s: State, step: Step, id: nat)
    requires Inv(s) && Enabled(s, step) && id < |Apply(s, step).hub.channels|
    ensures var after := Apply(s, step).hub.channels[id];
            if id >= |s.hub.channels| then
              step == Subscribe && id == |s.hub.channels| && after.from == |s.hub.log| && after.Sent() == [] && after.upTo.None?
            else
              var before := s.hub.channels[id];
              && after.from == before.from
              && after.upTo == if before.upTo.None? && (step == Unsubscribe(id) || step == Finish) then Some(|s.hub.log|) else before.upTo
  {
    if id < |s.hub.channels| {
      assert ChannelOk(s, id);
    }
  }

  // ----- The loop over the subscribers, one send at a time, adds up to the method

  function Served(hub: Hub, ids: set<nat>, chunk: Chunk): Hub {
    hub.(channels := seq(|hub.channels|, id requires 0 <= id < |hub.channels| =>
      if id in ids then hub.channels[id].Put(chunk) else hub.channels[id]))
  }

  function Sends(order: seq<nat>): seq<Step> {
    if order == [] then [BroadcastEnds] else [Send(order[0])] + Sends(order[1..])
  }

  /** `order` lists each of `ids` once. */
  predicate Lists(order: seq<nat>, ids: set<nat>)
    decreases |order|
  {
    if order == [] then ids == {} else order[0] in ids && Lists(order[1..], ids - {order[0]})
  }

  predicate HasRoom(hub: Hub, ids: set<nat>) {
    forall id | id in ids :: id < |hub.channels| && |hub.channels[id].queue| < CAPACITY
  }

  lemma {:induction false} SendsServe(s: State, order: seq<nat>)
    requires s.sending.Some? && Lists(order, s.sending.value)
    requires HasRoom(s.hub, s.sending.value) && s.hub.log != []
    ensures IsRun(s, Sends(order))
    ensures Run(s, Sends(order)) == State(Served(s.hub, s.sending.value, s.hub.log[|s.hub.log| - 1]), None)
    decreases |order|
  {
    var chunk := s.hub.log[|s.hub.log| - 1];
    if order == [] {
      assert Served(s.hub, {}, chunk).channels == s.hub.channels;
      assert Sends(order)[1..] == [];
    } else {
      var next := Apply(s, Send(order[0]));
      SendsServe(next, order[1..]);
      assert Sends(order)[1..] == Sends(order[1..]);
      assert Served(next.hub, next.sending.value, chunk).channels == Served(s.hub, s.sending.value, chunk).channels;
    }
  }

  /** In whatever order the subscribers are served, a broadcast that finds room has the method's effect. */
  lemma BroadcastsAddUp(s: State, chunk: Chunk, order: seq<nat>)
    requires s.sending.None? && !s.hub.closed
    requires Lists(order, s.hub.subscribers) && HasRoom(s.hub, s.hub.subscribers)
    ensures var steps := [BroadcastBegins(chunk)] + Sends(order);
            IsRun(s, steps) && Run(s, steps) == State(s.hub.Broadcast(chunk), None)
  {
    var steps := [BroadcastBegins(chunk)] + Sends(order);
    var begun := Apply(s, BroadcastBegins(chunk));
    assert steps[1..] == Sends(order);
    SendsServe(begun, order);
    assert Served(begun.hub, s.hub.subscribers, chunk) == s.hub.Broadcast(chunk);
  }
}
