/**
 From terminal output to the command history: the frames that the runner sends for a stream
 (services/runner/internal/http/handlers/terminal_ws.go, TerminalWebSocket) and what the
 browser makes of them.
 */
module CommandPipeline {
  import opened Common
  import opened Text
  import Base64
  import opened MarkerLines
  import opened CompletionTracker
  import opened CommandHistory

  function Pairs(completions: seq<Completion>): seq<Frame> {
    if completions == [] then []
    else
      [Status("running", Some(completions[0].command)), Exit(Some(completions[0].exitCode))] + Pairs(completions[1..])
  }

  function FramesOf(drained: Drained): seq<Frame> {
    (if drained.output != "" then [Output(drained.output)] else []) + Pairs(drained.completions)
  }

  predicate HasCommandCompletion(completions: seq<Completion>, command: string) {
    exists completion :: completion in completions && completion.command == command
  }

  /** The end of a stream: the flush, and the exit command that ended the shell, if one was submitted. */
  function FinalDrain(pending: string, exit: Option<Completion>): Drained {
    var flushed := Drain(pending, true).0;
    if exit.Some? && !HasCommandCompletion(flushed.completions, exit.value.command) then
      flushed.(completions := flushed.completions + [exit.value])
    else flushed
  }

  /** A stream ends with the shell, and perhaps a submitted exit command, or it breaks, and nothing is flushed. */
  datatype StreamEnd = Ended(exit: Option<Completion>) | Broken

  function FinalFrames(pending: string, end: StreamEnd): seq<Frame> {
    match end
    case Ended(exit) => FramesOf(FinalDrain(pending, exit))
    case Broken => []
  }

  /** The frames of a stream, from what is in the buffer on. */
  function RunnerFrames(pending: string, chunks: seq<string>, end: StreamEnd): seq<Frame>
    decreases |chunks|
  {
    if chunks == [] then FinalFrames(pending, end)
    else
      var (drained, rest) := Drain(pending + chunks[0], false);
      FramesOf(drained) + RunnerFrames(rest, chunks[1..], end)
  }

  /** All frames of one connection. */
  function ConnectionFrames(chunks: seq<string>, end: StreamEnd): seq<Frame> {
    [Ready] + RunnerFrames("", chunks, end)
  }

  /** What is left of a stream gives out: its output, and the completions in order, the exit command last. */
  function Given(pending: string, chunks: seq<string>, end: StreamEnd): Drained {
    match end
    case Ended(exit) =>
      var stream := Stream(pending, chunks);
      stream.(completions := stream.completions + (if exit.Some? then [exit.value] else []))
    case Broken => Feed(pending, chunks).0
  }

  function Reported(chunks: seq<string>, end: StreamEnd): seq<Completion> {
    Given("", chunks, end).completions
  }

  lemma GivenStep(pending: string, chunks: seq<string>, end: StreamEnd)
    requires chunks != []
    ensures var (drained, rest) := Drain(pending + chunks[0], false);
            Given(pending, chunks, end) == drained.Then(Given(rest, chunks[1..], end))
  {
    if end.Ended? {
      var (drained, rest) := Drain(pending + chunks[0], false);
      StreamStep(pending, chunks);
      LastCompletion(drained, Stream(rest, chunks[1..]), if end.exit.Some? then [end.exit.value] else []);
    }
  }

  lemma LastCompletion(first: Drained, others: Drained, last: seq<Completion>)
    ensures var all := first.Then(others);
            all.(completions := all.completions + last) == first.Then(others.(completions := others.completions + last))
  {
    Reassociate(first.completions, others.completions, last);
  }

  lemma GivenAtTheEnd(pending: string, end: StreamEnd)
    requires '\n' !in pending
    ensures match end
            case Ended(exit) => FinalDrain(pending, exit) == Given(pending, [], end)
            case Broken => Given(pending, [], end) == NOTHING
  {
    DrainWithoutLine(pending);
    StreamOfNothing(pending);
  }

  /** The completions whose command the browser does not take for blank, as the browser trims them. */
  function Displayed(completions: seq<Completion>): seq<Completion> {
    if completions == [] then [] else DisplayedOne(completions[0]) + Displayed(completions[1..])
  }

  function DisplayedOne(completion: Completion): seq<Completion> {
    var command := JavaScript.Trim(completion.command);
    if command == "" then [] else [completion.(command := command)]
  }

  function ClosedEntries(sessionId: string, completions: seq<Completion>): seq<Entry> {
    seq(|completions|, i requires 0 <= i < |completions| =>
      StoppedEntry(sessionId, i, completions[i].command, Some(completions[i].exitCode)))
  }

  // ----- Logs in which every command has been closed

  /** The log's commands are those of `completions`, each closed with its exit code. */
  ghost predicate Tells(log: seq<Frame>, completions: seq<Completion>) {
    && |Commands(log)| == |Closings(log)| == |completions|
    && forall i | 0 <= i < |completions| ::
         Commands(log)[i] == completions[i].command && Closings(log)[i] == Some(completions[i].exitCode)
  }

  lemma TellsMore(log: seq<Frame>, earlier: seq<Completion>, longer: seq<Frame>, completion: Completion)
    requires Tells(log, earlier)
    requires Commands(longer) == Commands(log) + [completion.command]
    requires Closings(longer) == Closings(log) + [Some(completion.exitCode)]
    ensures Tells(longer, earlier + [completion])
  {
  }

  lemma OneMoreFrame(log: seq<Frame>, frame: Frame)
    ensures Commands(log + [frame]) ==
            if Started(frame).Some? then Commands(log) + [Started(frame).value] else Commands(log)
    ensures Closings(log + [frame]) ==
            if frame.Exit? && |Closings(log)| < |Commands(log)| then Closings(log) + [frame.exitCode] else Closings(log)
  {
    assert (log + [frame])[..|log|] == log;
  }

  lemma OneMorePair(log: seq<Frame>, earlier: seq<Completion>, completion: Completion)
    requires Tells(log, earlier)
    ensures var status, exit := Status("running", Some(completion.command)), Exit(Some(completion.exitCode));
            Tells(log + [status] + [exit], earlier + DisplayedOne(completion))
  {
    var status, exit := Status("running", Some(completion.command)), Exit(Some(completion.exitCode));
    var longer := log + [status] + [exit];
    OneMoreFrame(log, status);
    OneMoreFrame(log + [status], exit);
    var command := JavaScript.Trim(completion.command);
    if command == "" {
      assert earlier + DisplayedOne(completion) == earlier;
    } else {
      TellsMore(log, earlier, longer, completion.(command := command));
    }
  }

  lemma {:induction false} DisplayedJoins(a: seq<Completion>, b: seq<Completion>)
    ensures Displayed(a + b) == Displayed(a) + Displayed(b)
    decreases |a|
  {
    if a == [] {
      assert a + b == b;
    } else {
      assert (a + b)[1..] == a[1..] + b;
      DisplayedJoins(a[1..], b);
      Reassociate(DisplayedOne(a[0]), Displayed(a[1..]), Displayed(b));
    }
  }

  lemma PairsSplit(log: seq<Frame>, completions: seq<Completion>)
    requires completions != []
    ensures var first := completions[0];
            log + Pairs(completions) ==
            log + [Status("running", Some(first.command))] + [Exit(Some(first.exitCode))] + Pairs(completions[1..])
  {
    var first := completions[0];
    var status, exit := Status("running", Some(first.command)), Exit(Some(first.exitCode));
    assert [status, exit] == [status] + [exit];
    Reassociate(log, [status, exit], Pairs(completions[1..]));
    Reassociate(log, [status], [exit]);
  }

  lemma {:induction false} MorePairs(log: seq<Frame>, earlier: seq<Completion>, completions: seq<Completion>)
    requires Tells(log, earlier)
    ensures Tells(log + Pairs(completions), earlier + Displayed(completions))
    decreases |completions|
  {
    if completions == [] {
      assert log + Pairs(completions) == log && earlier + Displayed(completions) == earlier;
    } else {
      var first, others := completions[0], completions[1..];
      var status, exit := Status("running", Some(first.command)), Exit(Some(first.exitCode));
      OneMorePair(log, earlier, first);
      MorePairs(log + [status] + [exit], earlier + DisplayedOne(first), others);
      PairsSplit(log, completions);
      Reassociate(earlier, DisplayedOne(first), Displayed(others));
    }
  }

  lemma MoreDrained(log: seq<Frame>, earlier: seq<Completion>, drained: Drained)
    requires Tells(log, earlier)
    ensures Tells(log + FramesOf(drained), earlier + Displayed(drained.completions))
  {
    var pairs := Pairs(drained.completions);
    if drained.output != "" {
      OneMoreFrame(log, Output(drained.output));
      MorePairs(log + [Output(drained.output)], earlier, drained.completions);
      Reassociate(log, [Output(drained.output)], pairs);
    } else {
      MorePairs(log, earlier, drained.completions);
      assert FramesOf(drained) == pairs;
    }
  }

  /** The buffer that reaches the flush holds no line, so an exit command is never taken for a repetition. */
  lemma ExitCommandIsAlwaysReported(pending: string, exit: Option<Completion>)
    requires '\n' !in pending
    ensures FinalDrain(pending, exit) == Drained(pending, if exit.Some? then [exit.value] else [])
  {
    DrainWithoutLine(pending);
  }

  lemma {:induction false} MoreOfTheStream(
    log: seq<Frame>, earlier: seq<Completion>, pending: string, chunks: seq<string>, end: StreamEnd)
    requires Tells(log, earlier)
    requires '\n' !in pending
    ensures Tells(log + RunnerFrames(pending, chunks, end), earlier + Displayed(Given(pending, chunks, end).completions))
    decreases |chunks|
  {
    if chunks == [] {
      EndOfTheStream(log, earlier, pending, end);
    } else {
      var (drained, rest) := Drain(pending + chunks[0], false);
      TailHasNoNewline(pending + chunks[0]);
      MoreDrained(log, earlier, drained);
      MoreOfTheStream(log + FramesOf(drained), earlier + Displayed(drained.completions), rest, chunks[1..], end);
      GivenStep(pending, chunks, end);
      var later := Given(rest, chunks[1..], end).completions;
      DisplayedJoins(drained.completions, later);
      Reassociate(log, FramesOf(drained), RunnerFrames(rest, chunks[1..], end));
      Reassociate(earlier, Displayed(drained.completions), Displayed(later));
    }
  }

  lemma EndOfTheStream(log: seq<Frame>, earlier: seq<Completion>, pending: string, end: StreamEnd)
    requires Tells(log, earlier) && '\n' !in pending
    ensures Tells(log + FinalFrames(pending, end), earlier + Displayed(Given(pending, [], end).completions))
  {
    GivenAtTheEnd(pending, end);
    match end
    case Ended(exit) => MoreDrained(log, earlier, FinalDrain(pending, exit));
    case Broken =>
      assert log + [] == log && earlier + [] == earlier;
  }

  lemma StreamTells(chunks: seq<string>, end: StreamEnd)
    ensures Tells(ConnectionFrames(chunks, end), Displayed(Reported(chunks, end)))
  {
    var displayed := Displayed(Reported(chunks, end));
    OneMoreFrame([], Ready);
    assert [] + [Ready] == [Ready];
    MoreOfTheStream([Ready], [], "", chunks, end);
    assert [] + displayed == displayed;
  }

  /** End to end: the history of a connection lists what its stream reported, each entry closed with its exit code. */
  lemma HistoryTellsTheStream(sessionId: string, chunks: seq<string>, end: StreamEnd)
    ensures var log := ConnectionFrames(chunks, end);
            && HistoryOf(sessionId, Commands(log), Closings(log)) ==
               ClosedEntries(sessionId, Displayed(Reported(chunks, end)))
            && IdsFrom(sessionId, |Closings(log)|, |Commands(log)|) == []
  {
    StreamTells(chunks, end);
  }

  // ----- What the terminal shows

  function ShownText(frames: seq<Frame>): string {
    if frames == [] then "" else Concat(Shown(frames[0])) + ShownText(frames[1..])
  }

  lemma {:induction false} ShownTextAppends(a: seq<Frame>, b: seq<Frame>)
    ensures ShownText(a + b) == ShownText(a) + ShownText(b)
    decreases |a|
  {
    if a == [] {
      assert a + b == b;
    } else {
      assert (a + b)[1..] == a[1..] + b;
      ShownTextAppends(a[1..], b);
      Reassociate(Concat(Shown(a[0])), ShownText(a[1..]), ShownText(b));
    }
  }

  lemma {:induction false} PairsShowNothing(completions: seq<Completion>)
    ensures ShownText(Pairs(completions)) == ""
    decreases |completions|
  {
    if completions != [] {
      var pairs := Pairs(completions);
      PairsShowNothing(completions[1..]);
      assert pairs[1..][1..] == Pairs(completions[1..]);
    }
  }

  lemma DrainedShows(drained: Drained)
    ensures ShownText(FramesOf(drained)) == drained.output
  {
    PairsShowNothing(drained.completions);
    if drained.output != "" {
      assert FramesOf(drained)[1..] == Pairs(drained.completions);
      assert Concat([drained.output]) == drained.output;
    } else {
      assert FramesOf(drained) == Pairs(drained.completions);
    }
  }

  lemma {:induction false} StreamShows(pending: string, chunks: seq<string>, end: StreamEnd)
    requires '\n' !in pending
    ensures ShownText(RunnerFrames(pending, chunks, end)) == Given(pending, chunks, end).output
    decreases |chunks|
  {
    if chunks == [] {
      GivenAtTheEnd(pending, end);
      if end.Ended? {
        DrainedShows(FinalDrain(pending, end.exit));
      }
    } else {
      var (drained, rest) := Drain(pending + chunks[0], false);
      TailHasNoNewline(pending + chunks[0]);
      DrainedShows(drained);
      StreamShows(rest, chunks[1..], end);
      GivenStep(pending, chunks, end);
      ShownTextAppends(FramesOf(drained), RunnerFrames(rest, chunks[1..], end));
    }
  }

  lemma {:induction false} TranscriptIsWhatIsShown(log: seq<Frame>)
    ensures Concat(Transcript(log)) == ShownText(log)
    decreases |log|
  {
    if log != [] {
      var init, last := log[..|log| - 1], log[|log| - 1];
      TranscriptIsWhatIsShown(init);
      ConcatAppends(Transcript(init), Shown(last));
      ShownTextAppends(init, [last]);
      assert init + [last] == log;
      assert ShownText([last]) == Concat(Shown(last)) + ShownText([]);
    }
  }

  /** The transcript is the stream's output: all that was received, but for the marker and continuation lines. */
  lemma TranscriptIsTheOutput(chunks: seq<string>, end: StreamEnd)
    ensures Concat(Transcript(ConnectionFrames(chunks, end))) == Given("", chunks, end).output
  {
    var frames := RunnerFrames("", chunks, end);
    StreamShows("", chunks, end);
    TranscriptIsWhatIsShown([Ready] + frames);
    ShownTextAppends([Ready], frames);
    assert ShownText([Ready]) == "";
  }

  // ----- When the history is exactly the list of completions

  lemma {:induction false} DisplayedUnchanged(completions: seq<Completion>)
    requires forall i | 0 <= i < |completions| :: completions[i].command != ""
    ensures |Displayed(completions)| <= |completions|
    ensures Displayed(completions) == completions
       <==> forall i | 0 <= i < |completions| :: JavaScript.Trim(completions[i].command) == completions[i].command
    decreases |completions|
  {
    if completions != [] {
      var first, others := completions[0], completions[1..];
      DisplayedUnchanged(others);
      var command := JavaScript.Trim(first.command);
      if command == first.command {
        assert Displayed(completions) == [first] + Displayed(others);
        assert completions == [first] + others;
      } else if command != "" {
        assert Displayed(completions)[0].command != first.command;
      }
    }
  }

  predicate IsCommand(completion: Completion) {
    completion.command != "" && Go.IsTrimmed(completion.command)
  }

  lemma {:induction false} JustifiedSegmentsReportCommands(segments: seq<Segment>)
    requires forall i | 0 <= i < |segments| :: segments[i].Justified()
    ensures forall c | c in Effects(segments).completions :: IsCommand(c)
    decreases |segments|
  {
    if segments != [] {
      JustifiedSegmentsReportCommands(segments[1..]);
      if segments[0].Marker? {
        MarkersNameCommands(segments[0].text);
      }
    }
  }

  lemma MarkersNameCommands(line: string)
    ensures ParseMetadata(line).Some? ==> IsCommand(ParseMetadata(line).value)
  {
    var matched := MatchMetadata(Normalize(line));
    if ParseMetadata(line).Some? {
      TrimTrims(Go, Base64.Decode(matched.value.1).value);
    }
  }

  /**
   The history is exactly the list of reported completions if and only if no reported command
   starts or ends with a byte order mark, the one character that the browser trims and Go does not.
   */
  lemma HistoryIsTheCompletionList(chunks: seq<string>, end: StreamEnd)
    requires end.Ended? && end.exit.Some? ==> IsCommand(end.exit.value)
    ensures Displayed(Reported(chunks, end)) == Reported(chunks, end)
       <==> forall c | c in Reported(chunks, end) :: !HasByteOrderMarkAtAnEnd(c.command)
  {
    var reported := Reported(chunks, end);
    ReportedAreCommands(chunks, end);
    assert forall i | 0 <= i < |reported| :: reported[i] in reported;
    forall i | 0 <= i < |reported|
      ensures JavaScript.Trim(reported[i].command) == reported[i].command <==> !HasByteOrderMarkAtAnEnd(reported[i].command)
    {
      TrimAgain(reported[i].command);
    }
    DisplayedUnchanged(reported);
  }

  lemma ReportedAreCommands(chunks: seq<string>, end: StreamEnd)
    requires end.Ended? && end.exit.Some? ==> IsCommand(end.exit.value)
    ensures forall c | c in Reported(chunks, end) :: IsCommand(c)
  {
    if end.Ended? {
      var segments := StreamAccounts(chunks);
      JustifiedSegmentsReportCommands(segments);
    } else {
      var segments, done := FeedAccounts("", chunks);
      JustifiedSegmentsReportCommands(segments);
    }
  }

  /** The browser receiving a connection's frames. */
  method Receive(hook: TerminalSessionHook, token: nat, frames: seq<Frame>)
    requires hook.Valid() && token == hook.reconnectToken
    modifies hook
    ensures hook.Valid() && hook.log == old(hook.log) + frames
    ensures hook.sessionId == old(hook.sessionId) && hook.reconnectToken == token
  {
    ghost var before := hook.log;
    assert before + frames[..0] == before;
    for i := 0 to |frames|
      invariant hook.Valid()
      invariant hook.log == before + frames[..i]
      invariant hook.sessionId == old(hook.sessionId) && hook.reconnectToken == token
    {
      OneFrameMore(before, frames, i);
      hook.OnMessage(token, frames[i]);
    }
    assert frames[..|frames|] == frames;
  }

  lemma OneFrameMore(before: seq<Frame>, frames: seq<Frame>, i: nat)
    requires i < |frames|
    ensures before + frames[..i] + [frames[i]] == before + frames[..i + 1]
  {
  }

  /** A connection from its opening to the end of its stream. */
  method ShowStream(hook: TerminalSessionHook, session: string, chunks: seq<string>, end: StreamEnd)
    modifies hook
    ensures hook.history == ClosedEntries(session, Displayed(Reported(chunks, end)))
    ensures hook.pendingCommandEntryIds == []
    ensures Concat(hook.transcript) == Given("", chunks, end).output
  {
    var token := hook.Connect(Some(session));
    var frames := ConnectionFrames(chunks, end);
    Receive(hook, token, frames);
    assert [] + frames == frames;
    HistoryTellsTheStream(session, chunks, end);
    TranscriptIsTheOutput(chunks, end);
  }
}
