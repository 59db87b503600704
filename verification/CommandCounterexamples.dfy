/** Streams for which what comes out is not what one might expect. */
module CommandCounterexamples {
  import opened Common
  import opened Text
  import Base64
  import opened MarkerLines
  import opened CompletionTracker
  import opened CommandHistory
  import opened CommandPipeline

  // ----- A cut that shows

  /** The marker line of a command has one newline, at its end. */
  lemma MarkerLineIsOneLine(command: string, exitCode: int, end: string)
    requires Base64.IsBytes(command) && Go.Trim(command) != ""
    requires MIN_INT <= exitCode <= MAX_INT && (end == "\n" || end == "\r\n")
    ensures var line := MetadataText(Itoa(exitCode), Base64.Encode(command)) + end;
            NewlineIndex(line) == |line| - 1
  {
    var text := MetadataText(Itoa(exitCode), Base64.Encode(command));
    assert command != "" by {
      assert Go.Trim("") == "";
    }
    ItoaRoundTrip(exitCode);
    Base64.EncodingIsPayload(command);
    MarkerLinesArePlain(Itoa(exitCode), Base64.Encode(command));
    NewlineAt(text + end, |text + end| - 1);
  }

  lemma OneLineIsFirst(line: string)
    requires line != "" && NewlineIndex(line) == |line| - 1
    ensures HasLine(line) && FirstLine(line) == line && AfterLine(line) == "" && Tail(line) == ""
  {
    assert AfterLine(line) == "" && !HasLine("");
  }

  lemma NothingDrains()
    ensures DrainLines("") == NOTHING
  {
    assert !HasLine("");
  }

  lemma FirstLineDrains(line: string)
    requires line != "" && NewlineIndex(line) == |line| - 1
    ensures DrainLines(line) == DrainLine(line).Then(NOTHING)
  {
    OneLineIsFirst(line);
    NothingDrains();
  }

  lemma OneLineDrains(line: string)
    requires line != "" && NewlineIndex(line) == |line| - 1
    ensures Drain(line, true).0 == DrainLine(line)
  {
    var drained := DrainLine(line);
    FirstLineDrains(line);
    ThenNothing(drained);
    OneLineIsFirst(line);
  }

  /**
   A cut inside a marker line shows exactly if it comes behind the 23 characters of the marker: the
   first part is then sent ahead, and the command is lost.
   */
  lemma MarkerLineCutShowsIff(command: string, exitCode: int, end: string, cut: nat)
    requires Base64.IsBytes(command) && Go.Trim(command) != ""
    requires MIN_INT <= exitCode <= MAX_INT && (end == "\n" || end == "\r\n")
    requires cut < |MetadataText(Itoa(exitCode), Base64.Encode(command)) + end|
    ensures var line := MetadataText(Itoa(exitCode), Base64.Encode(command)) + end;
            Stream("", [line[..cut], line[cut..]]) != Stream("", [line]) <==> cut > 23
  {
    var line := MetadataText(Itoa(exitCode), Base64.Encode(command)) + end;
    if cut > 23 {
      MarkerLineRoundTrip(command, exitCode, end);
      MarkerLineIsOneLine(command, exitCode, end);
      CutInTwo(line, cut);
      CutReportedLineShows(line[..cut], line[cut..], line);
    } else {
      MarkerComesFirst(Itoa(exitCode), Base64.Encode(command), end);
      EarlyCut(line, cut);
    }
  }

  lemma MarkerComesFirst(numeral: string, payload: string, end: string)
    ensures EXIT_MARKER <= MetadataText(numeral, payload) + end
    ensures |EXIT_MARKER| == 23
  {
    assert MetadataText(numeral, payload) + end == EXIT_MARKER + (":" + BodyText(numeral, payload) + end);
  }

  lemma PartOfPrefix(marker: string, line: string, cut: nat)
    requires marker <= line && cut <= |marker|
    ensures line[..cut] <= marker && "" + line[..cut] == line[..cut] && line[..cut] + line[cut..] == line
  {
  }

  lemma EarlyCut(line: string, cut: nat)
    requires EXIT_MARKER <= line && cut <= |EXIT_MARKER|
    ensures Stream("", [line[..cut], line[cut..]]) == Stream("", [line])
  {
    PartOfPrefix(EXIT_MARKER, line, cut);
    EmptyTail();
    CutInTheMarkerIsInvisible("", line[..cut], line[cut..]);
  }

  lemma EmptyTail()
    ensures Tail("") == ""
  {
    assert !HasLine("");
  }

  lemma CutInTwo(line: string, cut: nat)
    requires cut < |line|
    ensures line[..cut] + line[cut..] == line && |line[..cut]| == cut && line[cut..] != ""
  {
  }

  lemma CutReportedLineShows(before: string, after: string, line: string)
    requires before + after == line && |before| > 23 && after != ""
    requires NewlineIndex(line) == |line| - 1 && ParseMetadata(line).Some?
    ensures Stream("", [before, after]) != Stream("", [line])
  {
    CutLine(before, after, line);
    ReportedIsNotKept(line);
    UnkeptCutShows(before, after, line);
  }

  lemma UnkeptCutShows(before: string, after: string, line: string)
    requires before + after == line && !Kept(line)
    requires !SafeCut(before) && Tail(before) == before && HasLine(after) && FirstLine(after) == after
    ensures Stream("", [before, after]) != Stream("", [line])
  {
    CutIsInvisible(before, after);
  }

  lemma CutHead(before: string, after: string, line: string)
    requires before + after == line && after != "" && NewlineIndex(line) == |line| - 1
    ensures '\n' !in before
  {
    assert forall i | 0 <= i < |before| :: before[i] == line[i];
  }

  lemma CutRest(before: string, after: string, line: string)
    requires before + after == line && after != "" && NewlineIndex(line) == |line| - 1
    ensures NewlineIndex(after) == |after| - 1
  {
    assert forall i | 0 <= i < |after| :: after[i] == line[|before| + i];
    NewlineAt(after, |after| - 1);
  }

  lemma CutLine(before: string, after: string, line: string)
    requires before + after == line && |before| > 23 && after != "" && NewlineIndex(line) == |line| - 1
    ensures Tail(before) == before && !SafeCut(before)
    ensures HasLine(after) && FirstLine(after) == after
  {
    CutHead(before, after, line);
    LongPartIsNotSafe(before);
    CutRest(before, after, line);
    OneLineIsFirst(after);
  }

  lemma LongPartIsNotSafe(part: string)
    requires '\n' !in part && |part| > 23
    ensures Tail(part) == part && !SafeCut(part)
  {
    DrainWithoutLine(part);
    assert |EXIT_MARKER| == 23;
  }

  lemma ReportedIsNotKept(line: string)
    requires ParseMetadata(line).Some?
    ensures !Kept(line)
  {
  }

  /** For one, the line of "ls" cut behind the colon. */
  lemma CutShows()
    ensures var before, after := EXIT_MARKER + ":", "0:bHM=\n";
            Stream("", [before, after]) != Stream("", [before + after])
  {
    var line := MetadataText(Itoa(0), Base64.Encode("ls")) + "\n";
    assert Base64.Letters('l' as int, 's' as int, 0)[..3] == "bHM";
    assert Base64.Encode("ls") == "bHM=" && Itoa(0) == "0";
    assert line == EXIT_MARKER + ":" + "0:bHM=\n";
    NotTrimmable("ls");
    MarkerLineCutShowsIff("ls", 0, "\n", 24);
    assert line[..24] == EXIT_MARKER + ":" && line[24..] == "0:bHM=\n";
  }

  // ----- A history that differs from the completions

  /** "ls" behind a byte order mark. */
  const MARKED := [0xEF as char, 0xBB as char, 0xBF as char, 'l', 's']

  /** How the spaces that Go trims start and end. */
  lemma SpaceBytes(u: string)
    requires Go.IsSpace(u)
    ensures u != ""
    ensures u[0] as int <= 32 || u[0] as int in {0xC2, 0xE1, 0xE2, 0xE3}
    ensures u[|u| - 1] as int <= 32 || u[|u| - 1] as int >= 0x80
  {
  }

  lemma NotTrimmable(s: string)
    requires s != ""
    requires s[0] as int > 32 && s[0] as int !in {0xC2, 0xE1, 0xE2, 0xE3}
    requires 32 < s[|s| - 1] as int < 0x80
    ensures Go.Trim(s) == s
  {
    forall n: nat | 1 <= n <= 3
      ensures !Go.StartsWithSpace(s, n) && !Go.EndsWithSpace(s, n)
    {
      if n <= |s| {
        VisibleEnds(s, n);
      }
    }
    TrimIsIdentity(Go, s);
  }

  lemma VisibleEnds(s: string, n: nat)
    requires 1 <= n <= |s|
    requires s[0] as int > 32 && s[0] as int !in {0xC2, 0xE1, 0xE2, 0xE3}
    requires 32 < s[|s| - 1] as int < 0x80
    ensures !Go.IsSpace(s[..n]) && !Go.IsSpace(s[|s| - n..])
  {
    if Go.IsSpace(s[..n]) {
      SpaceBytes(s[..n]);
    }
    if Go.IsSpace(s[|s| - n..]) {
      SpaceBytes(s[|s| - n..]);
    }
  }

  lemma MarkedIsACommand()
    ensures Base64.IsBytes(MARKED) && HasByteOrderMarkAtAnEnd(MARKED) && Go.Trim(MARKED) == MARKED
  {
    NotTrimmable(MARKED);
    assert MARKED[..3] == [0xEF as char, 0xBB as char, 0xBF as char];
  }

  function MarkedLine(): string {
    MetadataText(Itoa(0), Base64.Encode((MarkedIsACommand(); MARKED))) + "\n"
  }

  /** The line of a command with a byte order mark is reported as it is, but its entry is another. */
  lemma MarkedCommandIsShownDifferently(sessionId: string)
    ensures Reported([MarkedLine()], Ended(None)) == [Completion(MARKED, 0)]
    ensures var log := ConnectionFrames([MarkedLine()], Ended(None));
            HistoryOf(sessionId, Commands(log), Closings(log)) != ClosedEntries(sessionId, [Completion(MARKED, 0)])
  {
    var completions := [Completion(MARKED, 0)];
    MarkedIsACommand();
    LineIsReported(MARKED, 0, "\n");
    HistoryTellsTheStream(sessionId, [MarkedLine()], Ended(None));
    HistoryIsTheCompletionList([MarkedLine()], Ended(None));
    assert completions[0] in completions;
    DifferentEntries(sessionId, Displayed(completions), completions);
  }

  lemma LineIsReported(command: string, exitCode: int, end: string)
    requires Base64.IsBytes(command) && Go.Trim(command) != ""
    requires MIN_INT <= exitCode <= MAX_INT && (end == "\n" || end == "\r\n")
    ensures var line := MetadataText(Itoa(exitCode), Base64.Encode(command)) + end;
            Reported([line], Ended(None)) == [Completion(Go.Trim(command), exitCode)]
  {
    var line := MetadataText(Itoa(exitCode), Base64.Encode(command)) + end;
    MarkerLineRoundTrip(command, exitCode, end);
    MarkerLineIsOneLine(command, exitCode, end);
    StreamOfOne(line);
    OneLineDrains(line);
  }

  lemma DifferentEntries(sessionId: string, a: seq<Completion>, b: seq<Completion>)
    ensures ClosedEntries(sessionId, a) == ClosedEntries(sessionId, b) ==> a == b
  {
    var x, y := ClosedEntries(sessionId, a), ClosedEntries(sessionId, b);
    if x == y {
      assert |a| == |x| == |y| == |b|;
      forall i | 0 <= i < |a|
        ensures a[i] == b[i]
      {
        assert x[i] == y[i];
      }
    }
  }
}
