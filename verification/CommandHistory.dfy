/**
 The browser's command history (apps/web/src/hooks/useTerminalSession.ts): a fold over the
 frames of the current connection.

 The class is the hook. Its ghost `log` holds the frames handled since the last reset, and
 `Valid` says what the hook's state must be for such a log without mentioning how the hook
 gets there: the n-th command is closed by the n-th exit that found a command running.
 */
module CommandHistory {
  import opened Common
  import opened Text

  datatype Frame =
    | Ready
    | Output(data: string)
    | Status(phase: string, detail: Option<string>)
    | Exit(exitCode: Option<int>)
    | Error(message: string)
    | Binary
    | Unparsed(text: string)

  datatype Phase = Running | Stopped

  datatype Entry = Entry(id: string, command: string, phase: Phase, exitCode: Option<int>, summary: string)

  // ----- What a log of frames means

  function EntryId(sessionId: string, n: nat): string {
    sessionId + "-" + Itoa(n)
  }

  lemma EntryIdIsInjective(sessionId: string, m: nat, n: nat)
    ensures EntryId(sessionId, m) == EntryId(sessionId, n) ==> m == n
  {
    ItoaIsInjective(m, n);
    var prefix := sessionId + "-";
    assert EntryId(sessionId, m)[|prefix|..] == Itoa(m);
    assert EntryId(sessionId, n)[|prefix|..] == Itoa(n);
  }

  /** The command a frame starts, if any. */
  function Started(frame: Frame): Option<string> {
    if frame.Status? && frame.phase == "running" && frame.detail.Some? && JavaScript.Trim(frame.detail.value) != "" then
      Some(JavaScript.Trim(frame.detail.value))
    else None
  }

  function Shown(frame: Frame): seq<string> {
    match frame
    case Output(data) => [data]
    case Binary => ["[binary]"]
    case Unparsed(text) => [text]
    case _ => []
  }

  function Commands(log: seq<Frame>): seq<string> {
    if log == [] then []
    else
      var earlier := Commands(log[..|log| - 1]);
      match Started(log[|log| - 1])
      case Some(command) => earlier + [command]
      case None => earlier
  }

  /** The exit codes of the exits that found a command running. */
  function Closings(log: seq<Frame>): (codes: seq<Option<int>>)
    ensures |codes| <= |Commands(log)|
  {
    if log == [] then []
    else
      var earlier, last := Closings(log[..|log| - 1]), log[|log| - 1];
      if last.Exit? && |earlier| < |Commands(log[..|log| - 1])| then earlier + [last.exitCode] else earlier
  }

  function Transcript(log: seq<Frame>): seq<string> {
    if log == [] then [] else Transcript(log[..|log| - 1]) + Shown(log[|log| - 1])
  }

  function Summary(exitCode: Option<int>): string {
    match exitCode
    case None => "Command finished"
    case Some(0) => "Command finished successfully"
    case Some(_) => "Command finished with errors"
  }

  function RunningEntry(sessionId: string, n: nat, command: string): Entry {
    Entry(EntryId(sessionId, n), command, Running, None, "Command running")
  }

  function StoppedEntry(sessionId: string, n: nat, command: string, exitCode: Option<int>): Entry {
    Entry(EntryId(sessionId, n), command, Stopped, exitCode, Summary(exitCode))
  }

  function HistoryOf(sessionId: string, commands: seq<string>, closings: seq<Option<int>>): (history: seq<Entry>)
    requires |closings| <= |commands|
  {
    seq(|commands|, i requires 0 <= i < |commands| =>
      if i < |closings| then StoppedEntry(sessionId, i, commands[i], closings[i])
      else RunningEntry(sessionId, i, commands[i]))
  }

  function IdsFrom(sessionId: string, from: nat, to: nat): seq<string>
    requires from <= to
  {
    seq(to - from, i requires 0 <= i < to - from => EntryId(sessionId, from + i))
  }

  /** The state of a connection that handling `frames` leaves: entries counted, history, queue and transcript. */
  ghost predicate Mirrors(
      sessionId: string, frames: seq<Frame>, count: nat, history: seq<Entry>, ids: seq<string>, transcript: seq<string>) {
    && count == |Commands(frames)|
    && history == HistoryOf(sessionId, Commands(frames), Closings(frames))
    && ids == IdsFrom(sessionId, |Closings(frames)|, |Commands(frames)|)
    && transcript == Transcript(frames)
  }

  // ----- The hook

  /** The command that a status starts, if any. */
  method CommandOf(phase: string, detail: Option<string>) returns (command: Option<string>)
    ensures command == Started(Status(phase, detail))
  {
    var trimmed := if detail.Some? then JavaScript.Trim(detail.value) else "";
    return if phase == "running" && trimmed != "" then Some(trimmed) else None;
  }

  class TerminalSessionHook {
    var sessionId: string
    var reconnectToken: nat
    var historyEntryCount: nat
    var pendingCommandEntryIds: seq<string>
    var history: seq<Entry>
    var transcript: seq<string>
    ghost var log: seq<Frame>

    ghost predicate Valid()
      reads this
    {
      Reflects(log)
    }

    /** The state is the one that handling `frames` leaves. */
    ghost predicate Reflects(frames: seq<Frame>)
      reads this
    {
      Mirrors(sessionId, frames, historyEntryCount, history, pendingCommandEntryIds, transcript)
    }

    constructor ()
      ensures Valid() && log == [] && reconnectToken == 0
    {
      sessionId := "terminal";
      reconnectToken := 0;
      historyEntryCount := 0;
      pendingCommandEntryIds := [];
      history := [];
      transcript := [];
      log := [];
    }

    /** The effect: runs when the session changes or a reconnect is asked for. */
    method Connect(session: Option<string>) returns (token: nat)
      modifies this
      ensures Valid() && log == []
      ensures token == reconnectToken == old(reconnectToken) + 1
      ensures sessionId == if session.Some? then session.value else "terminal"
    {
      reconnectToken := reconnectToken + 1;
      historyEntryCount := 0;
      pendingCommandEntryIds := [];
      transcript := [];
      history := [];
      log := [];
      sessionId := if session.Some? then session.value else "terminal";
      token := reconnectToken;
    }

    /** A message on the connection opened with `token`; messages of older connections are ignored. */
    method OnMessage(token: nat, frame: Frame)
      requires Valid()
      modifies this
      ensures Valid()
      ensures log == if token == old(reconnectToken) then old(log) + [frame] else old(log)
      ensures sessionId == old(sessionId) && reconnectToken == old(reconnectToken)
    {
      if reconnectToken != token {
        return;
      }
      ghost var before := log;
      log := log + [frame];
      match frame
      case Output(data) => Show(frame, data, before);
      case Binary => Show(frame, "[binary]", before);
      case Unparsed(text) => Show(frame, text, before);
      case Status(phase, detail) => OnStatus(phase, detail, before);
      case Exit(exitCode) => OnExit(exitCode, before);
      case Ready => LogWithQuiet(before, frame);
      case Error(_) => LogWithQuiet(before, frame);
    }

    method Show(ghost frame: Frame, text: string, ghost before: seq<Frame>)
      requires log == before + [frame] && !frame.Status? && !frame.Exit? && Shown(frame) == [text]
      requires Reflects(before)
      modifies this`transcript
      ensures Valid()
    {
      LogWithQuiet(before, frame);
      transcript := transcript + [text];
    }

    method OnStatus(phase: string, detail: Option<string>, ghost before: seq<Frame>)
      requires log == before + [Status(phase, detail)]
      requires Reflects(before)
      modifies this
      ensures Valid()
      ensures log == old(log) && sessionId == old(sessionId) && reconnectToken == old(reconnectToken)
    {
      var command := CommandOf(phase, detail);
      if command.None? {
        OtherStatusMirrors(sessionId, before, phase, detail, historyEntryCount, history, pendingCommandEntryIds, transcript);
        return;
      }
      StartMirrors(sessionId, before, phase, detail, historyEntryCount, history, pendingCommandEntryIds, transcript);
      var entryId := EntryId(sessionId, historyEntryCount);
      historyEntryCount := historyEntryCount + 1;
      pendingCommandEntryIds := pendingCommandEntryIds + [entryId];
      history := history + [Entry(entryId, command.value, Running, None, "Command running")];
    }

    method OnExit(exitCode: Option<int>, ghost before: seq<Frame>)
      requires log == before + [Exit(exitCode)]
      requires Reflects(before)
      modifies this
      ensures Valid()
      ensures log == old(log) && sessionId == old(sessionId) && reconnectToken == old(reconnectToken)
    {
      ExitMirrors(sessionId, before, exitCode, historyEntryCount, history, pendingCommandEntryIds, transcript);
      if pendingCommandEntryIds == [] || pendingCommandEntryIds[0] == "" {
        return;
      }
      var nextEntryId := pendingCommandEntryIds[0];
      pendingCommandEntryIds := pendingCommandEntryIds[1..];
      history := CloseById(history, nextEntryId, exitCode);
    }
  }

  function CloseIf(entry: Entry, id: string, exitCode: Option<int>): Entry {
    if entry.id == id then entry.(exitCode := exitCode, phase := Stopped, summary := Summary(exitCode)) else entry
  }

  /** The entries with the one called `id` closed. */
  function CloseById(entries: seq<Entry>, id: string, exitCode: Option<int>): seq<Entry> {
    seq(|entries|, i requires 0 <= i < |entries| => CloseIf(entries[i], id, exitCode))
  }

  /** What the browser shows of command `i`: running until its exit has come, and then how it ended. */
  lemma HistoryReads(sessionId: string, commands: seq<string>, closings: seq<Option<int>>, i: nat)
    requires |closings| <= |commands| && i < |commands|
    ensures |HistoryOf(sessionId, commands, closings)| == |commands|
    ensures var entry := HistoryOf(sessionId, commands, closings)[i];
            && entry.id == EntryId(sessionId, i) && entry.command == commands[i]
            && (entry.phase == Running <==> i >= |closings|)
            && entry.exitCode == (if i < |closings| then closings[i] else None)
            && (entry.summary == "Command running" <==> i >= |closings|)
            && (entry.summary == "Command finished successfully" <==> i < |closings| && closings[i] == Some(0))
            && (entry.summary == "Command finished with errors" <==> i < |closings| && closings[i].Some? && closings[i] != Some(0))
            && (entry.summary == "Command finished" <==> i < |closings| && closings[i] == None)
  {
    SummariesDiffer();
  }

  lemma SummariesDiffer()
    ensures |"Command running"| == 15 && |"Command finished"| == 16
    ensures |"Command finished successfully"| == 29 && |"Command finished with errors"| == 28
  {
  }

  /** A frame starts a command exactly if it is a running status whose detail is that command between spaces. */
  lemma RunningStatusStarts(frame: Frame, command: string)
    ensures Started(frame) == Some(command) <==>
            && frame.Status? && frame.phase == "running" && frame.detail.Some? && command != ""
            && NoSpaceAtTheEnds(JavaScript, command)
            && exists before, after :: IsBetweenSpaces(JavaScript, frame.detail.value, before, command, after)
  {
    if frame.Status? && frame.detail.Some? {
      TrimIsTheMiddle(JavaScript, frame.detail.value, command);
    }
  }

  lemma LogWithQuiet(before: seq<Frame>, frame: Frame)
    requires !frame.Status? && !frame.Exit?
    ensures var log := before + [frame];
            && Commands(log) == Commands(before) && Closings(log) == Closings(before)
            && Transcript(log) == Transcript(before) + Shown(frame)
  {
    assert (before + [frame])[..|before|] == before;
  }

  lemma LogWithStatus(before: seq<Frame>, phase: string, detail: Option<string>)
    ensures var log, started := before + [Status(phase, detail)], Started(Status(phase, detail));
            && Commands(log) == (if started.None? then Commands(before) else Commands(before) + [started.value])
            && Closings(log) == Closings(before) && Transcript(log) == Transcript(before)
  {
    var log := before + [Status(phase, detail)];
    assert log[..|log| - 1] == before;
    assert Transcript(log) == Transcript(before) + [];
  }

  lemma LogWithExit(before: seq<Frame>, exitCode: Option<int>)
    ensures var log := before + [Exit(exitCode)];
            && Commands(log) == Commands(before)
            && Transcript(log) == Transcript(before)
            && Closings(log) == if |Closings(before)| < |Commands(before)| then Closings(before) + [exitCode]
                                else Closings(before)
  {
    var log := before + [Exit(exitCode)];
    assert log[..|log| - 1] == before;
    assert Transcript(log) == Transcript(before) + [];
  }

  lemma NoneRunningIff(sessionId: string, commands: seq<string>, closings: seq<Option<int>>)
    requires |closings| <= |commands|
    ensures IdsFrom(sessionId, |closings|, |commands|) == [] <==> |closings| == |commands|
  {
  }

  lemma OneMoreCommand(sessionId: string, commands: seq<string>, closings: seq<Option<int>>, command: string)
    requires |closings| <= |commands|
    ensures HistoryOf(sessionId, commands + [command], closings) ==
            HistoryOf(sessionId, commands, closings) + [RunningEntry(sessionId, |commands|, command)]
    ensures IdsFrom(sessionId, |closings|, |commands| + 1) ==
            IdsFrom(sessionId, |closings|, |commands|) + [EntryId(sessionId, |commands|)]
  {
  }

  /** Closing by identifier closes exactly the oldest running entry. */
  lemma OneMoreClosing(sessionId: string, commands: seq<string>, closings: seq<Option<int>>, exitCode: Option<int>)
    requires |closings| < |commands|
    ensures HistoryOf(sessionId, commands, closings + [exitCode]) ==
            CloseById(HistoryOf(sessionId, commands, closings), EntryId(sessionId, |closings|), exitCode)
    ensures var ids := IdsFrom(sessionId, |closings|, |commands|);
            ids[0] == EntryId(sessionId, |closings|) != "" && ids[1..] == IdsFrom(sessionId, |closings| + 1, |commands|)
  {
    var before := HistoryOf(sessionId, commands, closings);
    var after := HistoryOf(sessionId, commands, closings + [exitCode]);
    forall i | 0 <= i < |commands|
      ensures after[i] == CloseIf(before[i], EntryId(sessionId, |closings|), exitCode)
    {
      EntryIdIsInjective(sessionId, i, |closings|);
    }
  }

  lemma OtherStatusMirrors(
      sessionId: string, before: seq<Frame>, phase: string, detail: Option<string>,
      count: nat, history: seq<Entry>, ids: seq<string>, transcript: seq<string>)
    requires Mirrors(sessionId, before, count, history, ids, transcript)
    requires Started(Status(phase, detail)) == None
    ensures Mirrors(sessionId, before + [Status(phase, detail)], count, history, ids, transcript)
  {
    LogWithStatus(before, phase, detail);
  }

  lemma StartMirrors(
      sessionId: string, before: seq<Frame>, phase: string, detail: Option<string>,
      count: nat, history: seq<Entry>, ids: seq<string>, transcript: seq<string>)
    requires Mirrors(sessionId, before, count, history, ids, transcript)
    requires Started(Status(phase, detail)).Some?
    ensures var command := Started(Status(phase, detail)).value;
            Mirrors(sessionId, before + [Status(phase, detail)], count + 1,
                    history + [RunningEntry(sessionId, count, command)], ids + [EntryId(sessionId, count)], transcript)
  {
    LogWithStatus(before, phase, detail);
    OneMoreCommand(sessionId, Commands(before), Closings(before), Started(Status(phase, detail)).value);
  }

  lemma ExitMirrors(
      sessionId: string, before: seq<Frame>, exitCode: Option<int>,
      count: nat, history: seq<Entry>, ids: seq<string>, transcript: seq<string>)
    requires Mirrors(sessionId, before, count, history, ids, transcript)
    ensures if ids == [] || ids[0] == "" then Mirrors(sessionId, before + [Exit(exitCode)], count, history, ids, transcript)
            else Mirrors(sessionId, before + [Exit(exitCode)], count, CloseById(history, ids[0], exitCode), ids[1..], transcript)
  {
    LogWithExit(before, exitCode);
    NoneRunningIff(sessionId, Commands(before), Closings(before));
    if |Closings(before)| < |Commands(before)| {
      OneMoreClosing(sessionId, Commands(before), Closings(before), exitCode);
    }
  }
}
