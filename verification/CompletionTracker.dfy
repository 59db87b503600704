/**
 The filter that takes marker lines out of the terminal stream and reports the commands they
 name (services/runner/internal/http/handlers/terminal_ws.go, commandCompletionTracker).
 */
module CompletionTracker {
  import opened Common
  import opened MarkerLines

  datatype Drained = Drained(output: string, completions: seq<Completion>)
  {
    function Then(next: Drained): Drained {
      Drained(output + next.output, completions + next.completions)
    }
  }

  const NOTHING := Drained("", [])

  /** The index of the first newline, or the length of `s`. */
  function NewlineIndex(s: string): (n: nat)
    ensures n <= |s|
    ensures n < |s| ==> s[n] == '\n'
    ensures forall i | 0 <= i < n :: s[i] != '\n'
  {
    if s == "" || s[0] == '\n' then 0 else 1 + NewlineIndex(s[1..])
  }

  predicate HasLine(s: string) {
    NewlineIndex(s) < |s|
  }

  function FirstLine(s: string): string
    requires HasLine(s)
  {
    s[..NewlineIndex(s) + 1]
  }

  function AfterLine(s: string): string
    requires HasLine(s)
  {
    s[NewlineIndex(s) + 1..]
  }

  /** What one line contributes. */
  function DrainLine(line: string): Drained {
    match ParseMetadata(line)
    case Some(completion) => Drained("", [completion])
    case None => Drained(if IsContinuation(line) then "" else line, [])
  }

  /** What the complete lines of `s` contribute. */
  function DrainLines(s: string): Drained
    decreases |s|
  {
    if HasLine(s) then DrainLine(FirstLine(s)).Then(DrainLines(AfterLine(s))) else NOTHING
  }

  /** What follows the last newline. */
  function Tail(s: string): string
    decreases |s|
  {
    if HasLine(s) then Tail(AfterLine(s)) else s
  }

  predicate CouldBeExitMarkerFragment(value: string) {
    value != "" && value <= EXIT_MARKER
  }

  /** One drain of the buffer: what comes out, and what stays. */
  function Drain(pending: string, flushAll: bool): (Drained, string) {
    var tail := Tail(pending);
    if flushAll || !CouldBeExitMarkerFragment(tail) then
      (DrainLines(pending).Then(Drained(tail, [])), "")
    else (DrainLines(pending), tail)
  }

  class CommandCompletionTracker {
    var pendingOutput: string

    constructor ()
      ensures pendingOutput == ""
    {
      pendingOutput := "";
    }

    method IngestOutput(chunk: string) returns (drained: Drained)
      modifies this
      ensures (drained, pendingOutput) == Drain(old(pendingOutput) + chunk, false)
    {
      pendingOutput := pendingOutput + chunk;
      drained := DrainLocked(false);
    }

    method Flush() returns (drained: Drained)
      modifies this
      ensures (drained, pendingOutput) == Drain(old(pendingOutput), true)
    {
      drained := DrainLocked(true);
    }

    method DrainLocked(flushAll: bool) returns (drained: Drained)
      modifies this
      ensures (drained, pendingOutput) == Drain(old(pendingOutput), flushAll)
    {
      var output := "";
      var completions := [];
      while HasLine(pendingOutput)
        invariant Drained(output, completions).Then(DrainLines(pendingOutput)) == DrainLines(old(pendingOutput))
        invariant Tail(pendingOutput) == Tail(old(pendingOutput))
        decreases |pendingOutput|
      {
        var line := FirstLine(pendingOutput);
        ThenIsAssociative(Drained(output, completions), DrainLine(line), DrainLines(AfterLine(pendingOutput)));
        pendingOutput := AfterLine(pendingOutput);
        var parsed := ParseMetadata(line);
        if parsed.Some? {
          completions := completions + [parsed.value];
          continue;
        }
        if IsContinuation(line) {
          continue;
        }
        output := output + line;
      }
      ThenNothing(Drained(output, completions));
      if flushAll || !CouldBeExitMarkerFragment(pendingOutput) {
        output := output + pendingOutput;
        pendingOutput := "";
      }
      drained := Drained(output, completions);
    }
  }

  lemma ThenIsAssociative(a: Drained, b: Drained, c: Drained)
    ensures a.Then(b).Then(c) == a.Then(b.Then(c))
    ensures b.completions == [] ==> a.Then(b).completions == a.completions
    ensures b.output == "" ==> a.Then(b).output == a.output
  {
  }

  lemma ThenNothing(a: Drained)
    ensures a.Then(NOTHING) == a && NOTHING.Then(a) == a
  {
  }

  // ----- Runs: a stream arrives in chunks and is flushed at its end

  /** Ingesting `chunks` in turn. */
  function Feed(pending: string, chunks: seq<string>): (Drained, string)
    decreases |chunks|
  {
    if chunks == [] then (NOTHING, pending)
    else
      var (first, rest) := Drain(pending + chunks[0], false);
      var (others, end) := Feed(rest, chunks[1..]);
      (first.Then(others), end)
  }

  /** Ingesting `chunks` in turn, and flushing at the end. */
  function Stream(pending: string, chunks: seq<string>): Drained {
    var (drained, end) := Feed(pending, chunks);
    drained.Then(Drain(end, true).0)
  }

  lemma NewlineAt(s: string, n: nat)
    requires n <= |s|
    requires n < |s| ==> s[n] == '\n'
    requires forall i | 0 <= i < n :: s[i] != '\n'
    ensures NewlineIndex(s) == n
  {
  }

  lemma {:induction false} TailHasNoNewline(s: string)
    ensures !HasLine(Tail(s)) && '\n' !in Tail(s)
    decreases |s|
  {
    if HasLine(s) {
      TailHasNoNewline(AfterLine(s));
    }
  }

  /** Between calls the buffer is a proper part of no line: a newline-free prefix of the exit marker. */
  lemma {:induction false} BufferIsAMarkerPrefix(pending: string, chunks: seq<string>)
    requires pending <= EXIT_MARKER
    ensures var end := Feed(pending, chunks).1;
            end <= EXIT_MARKER && |end| <= 23 && '\n' !in end
    decreases |chunks|
  {
    assert |EXIT_MARKER| == 23 && '\n' !in EXIT_MARKER;
    if chunks != [] {
      BufferIsAMarkerPrefix(Drain(pending + chunks[0], false).1, chunks[1..]);
    } else {
      assert forall i | 0 <= i < |pending| :: pending[i] == EXIT_MARKER[i];
    }
  }

  lemma DrainWithoutLine(s: string)
    requires '\n' !in s
    ensures DrainLines(s) == NOTHING && Tail(s) == s
    ensures Drain(s, true) == (Drained(s, []), "")
  {
    assert !HasLine(s);
    ThenNothing(Drained(s, []));
  }

  /** So the flush at the end of the stream never reports a completion. */
  lemma FlushReportsNoCompletion(chunks: seq<string>)
    ensures var pending := Feed("", chunks).1;
            Drain(pending, true) == (Drained(pending, []), "")
  {
    BufferIsAMarkerPrefix("", chunks);
    DrainWithoutLine(Feed("", chunks).1);
  }

  lemma FirstLineOf(s: string, more: string)
    requires HasLine(s)
    ensures HasLine(s + more)
    ensures FirstLine(s + more) == FirstLine(s) && AfterLine(s + more) == AfterLine(s) + more
  {
    NewlineAt(s + more, NewlineIndex(s));
  }

  /** Draining `s + more` is draining the lines of `s`, then what is left of `s` with `more`. */
  lemma {:induction false} DrainInTwoSteps(s: string, more: string)
    ensures DrainLines(s + more) == DrainLines(s).Then(DrainLines(Tail(s) + more))
    ensures Tail(s + more) == Tail(Tail(s) + more)
    decreases |s|
  {
    if HasLine(s) {
      FirstLineOf(s, more);
      DrainInTwoSteps(AfterLine(s), more);
      ThenIsAssociative(DrainLine(FirstLine(s)), DrainLines(AfterLine(s)), DrainLines(Tail(s) + more));
    } else {
      ThenNothing(DrainLines(s + more));
    }
  }

  // ----- Chunk independence

  /** A cut after `before` leaves nothing, or a part of the exit marker, of an unfinished line. */
  predicate SafeCut(before: string) {
    Tail(before) == "" || CouldBeExitMarkerFragment(Tail(before))
  }

  ghost predicate SafeCuts(before: string, chunks: seq<string>)
    decreases |chunks|
  {
    |chunks| <= 1 || (SafeCut(before + chunks[0]) && SafeCuts(before + chunks[0], chunks[1..]))
  }

  /** Draining and then flushing is flushing. */
  lemma FlushAfterDrain(s: string)
    ensures var (first, rest) := Drain(s, false);
            first.Then(Drain(rest, true).0) == Drain(s, true).0
  {
    TailHasNoNewline(s);
    DrainWithoutLine(Drain(s, false).1);
    ThenNothing(Drain(s, false).0);
  }

  lemma FlushInTwoSteps(before: string, more: string)
    ensures DrainLines(before).Then(Drain(Tail(before) + more, true).0) == Drain(before + more, true).0
  {
    DrainInTwoSteps(before, more);
    var s := Tail(before) + more;
    ThenIsAssociative(DrainLines(before), DrainLines(s), Drained(Tail(s), []));
  }

  lemma StreamStep(pending: string, chunks: seq<string>)
    requires chunks != []
    ensures var (first, rest) := Drain(pending + chunks[0], false);
            Stream(pending, chunks) == first.Then(Stream(rest, chunks[1..]))
  {
    var (first, rest) := Drain(pending + chunks[0], false);
    var (others, end) := Feed(rest, chunks[1..]);
    ThenIsAssociative(first, others, Drain(end, true).0);
  }

  lemma StreamOfNothing(pending: string)
    ensures Stream(pending, []) == Drain(pending, true).0
  {
    ThenNothing(Drain(pending, true).0);
  }

  lemma StreamOfOne(s: string)
    ensures Stream("", [s]) == Drain(s, true).0
  {
    assert "" + s == s;
    StreamStep("", [s]);
    StreamOfNothing(Drain(s, false).1);
    FlushAfterDrain(s);
  }

  // ----- Exactly when one cut can be seen

  predicate Kept(line: string) {
    DrainLine(line) == Drained(line, [])
  }

  /** The line that the cut falls into, if it ends: it is kept whole, and its second part is kept alone. */
  predicate CutLineIsKept(before: string, after: string) {
    HasLine(after) ==> Kept(Tail(before) + FirstLine(after)) && Kept(FirstLine(after))
  }

  /** An unsafe cut sends the first part of the line it falls into on its way at once. */
  lemma UnsafeCut(before: string, after: string)
    requires !SafeCut(before)
    ensures Stream("", [before, after]) ==
            DrainLines(before).Then(Drained(Tail(before), [])).Then(Drain(after, true).0)
  {
    var both := [before, after];
    assert "" + before == before && "" + after == after && both[1..] == [after];
    StreamStep("", both);
    StreamOfOne(after);
  }

  lemma LineAcrossTheCut(head: string, after: string)
    requires '\n' !in head
    requires HasLine(after)
    ensures Drain(after, true).0 == DrainLine(FirstLine(after)).Then(Drain(AfterLine(after), true).0)
    ensures Drain(head + after, true).0 == DrainLine(head + FirstLine(after)).Then(Drain(AfterLine(after), true).0)
  {
    var n := NewlineIndex(after);
    NewlineAt(head + after, |head| + n);
    assert FirstLine(head + after) == head + FirstLine(after);
    assert AfterLine(head + after) == AfterLine(after);
    var rest := AfterLine(after);
    ThenIsAssociative(DrainLine(FirstLine(after)), DrainLines(rest), Drained(Tail(rest), []));
    ThenIsAssociative(DrainLine(head + FirstLine(after)), DrainLines(rest), Drained(Tail(rest), []));
  }

  lemma SameInContext(a: Drained, x: Drained, y: Drained, c: Drained)
    ensures a.Then(x.Then(c)) == a.Then(y.Then(c)) <==> x == y
  {
    if a.Then(x.Then(c)) == a.Then(y.Then(c)) {
      SameMiddle(a.output, x.output, y.output, c.output);
      SameMiddle(a.completions, x.completions, y.completions, c.completions);
    }
  }

  lemma SameMiddle<T>(a: seq<T>, x: seq<T>, y: seq<T>, c: seq<T>)
    requires a + (x + c) == a + (y + c)
    ensures x == y
  {
    assert |a + (x + c)| == |a| + |x| + |c| && |a + (y + c)| == |a| + |y| + |c|;
    assert x == (a + (x + c))[|a|..|a| + |x|];
    assert y == (a + (y + c))[|a|..|a| + |y|];
  }

  /** The first part of a line sent ahead shows, unless the line is kept with and without it. */
  lemma HeadShows(head: string, line: string)
    requires head != ""
    ensures Drained(head, []).Then(DrainLine(line)) == DrainLine(head + line)
       <==> Kept(head + line) && Kept(line)
  {
    var sent := Drained(head, []).Then(DrainLine(line));
    assert |sent.output| == |head| + |DrainLine(line).output|;
    if sent == DrainLine(head + line) {
      assert DrainLine(head + line).output == head + line;
      assert |DrainLine(line).output| == |line|;
    }
  }

  /**
   Cutting a stream in two gives what the whole text gives exactly when the cut is safe, or the
   line it falls into never ends, or that line is kept both whole and without its first part.
   */
  lemma CutIsInvisible(before: string, after: string)
    ensures Stream("", [before, after]) == Stream("", [before + after])
       <==> SafeCut(before) || CutLineIsKept(before, after)
  {
    StreamOfOne(before + after);
    if SafeCut(before) {
      SafeCutInTwo(before, after);
    } else {
      var done, head := DrainLines(before), Tail(before);
      UnsafeCut(before, after);
      TailHasNoNewline(before);
      FlushInTwoSteps(before, after);
      ThenIsAssociative(done, Drained(head, []), Drain(after, true).0);
      if HasLine(after) {
        var line, rest := FirstLine(after), Drain(AfterLine(after), true).0;
        LineAcrossTheCut(head, after);
        ThenIsAssociative(Drained(head, []), DrainLine(line), rest);
        SameInContext(done, Drained(head, []).Then(DrainLine(line)), DrainLine(head + line), rest);
        HeadShows(head, line);
      } else {
        NewlineAt(after, |after|);
        DrainWithoutLine(after);
        DrainWithoutLine(head + after);
      }
    }
  }

  lemma SafeCutInTwo(before: string, after: string)
    requires SafeCut(before)
    ensures Stream("", [before, after]) == Stream("", [before + after])
  {
    var both := [before, after];
    assert "" + before == before && both[1..] == [after];
    assert SafeCuts("" + before, both[1..]);
    assert Concat(both[1..]) == after + Concat(both[1..][1..]) == after;
    SafeCutsAreInvisible(both);
  }

  /** A part of the exit marker at the start of a line, and nothing else, is held back until more comes. */
  lemma HeldBackIff(before: string, part: string)
    requires Tail(before) == "" && '\n' !in part && part != ""
    ensures Drain(before + part, false) ==
            if part <= EXIT_MARKER then (DrainLines(before), part) else (DrainLines(before).Then(Drained(part, [])), "")
  {
    DrainInTwoSteps(before, part);
    DrainWithoutLine(part);
    assert "" + part == part;
    ThenNothing(DrainLines(before));
  }

  lemma TextIsOneLine(text: string, part: string)
    requires '\n' !in text && part <= text
    ensures '\n' !in part
  {
    assert forall c | c in part :: c in text;
  }

  lemma PartIsSafe(before: string, part: string)
    requires Tail(before) == "" && '\n' !in part && (part == "" || CouldBeExitMarkerFragment(part))
    ensures SafeCut(before + part)
  {
    DrainInTwoSteps(before, part);
    DrainWithoutLine(part);
    assert "" + part == part;
  }

  /** A cut inside an exit marker that starts a line, or right before or behind it, does not show. */
  lemma CutInTheMarkerIsInvisible(before: string, part: string, after: string)
    requires Tail(before) == "" && part <= EXIT_MARKER
    ensures Stream("", [before + part, after]) == Stream("", [before + part + after])
  {
    TextIsOneLine(EXIT_MARKER, part);
    PartIsSafe(before, part);
    SafeCutInTwo(before + part, after);
  }

  // ----- Any number of cuts, inside the marker or not

  /**
   No cut between the chunks shows. `sent` is what has been sent ahead of the line being received,
   and `pending` is what is held of it. When the line ends after something was sent ahead, it has
   to be kept both whole and without that.
   */
  ghost predicate NoCutShows(sent: string, pending: string, chunks: seq<string>)
    decreases |chunks|
  {
    chunks == [] || (
      var text := pending + chunks[0];
      && (sent != "" && HasLine(text) ==> Kept(sent + FirstLine(text)) && Kept(FirstLine(text)))
      && NoCutShows(SentAhead(sent, text), HeldBack(text), chunks[1..]))
  }

  /** What stays in the buffer of `text`. */
  function HeldBack(text: string): string {
    if CouldBeExitMarkerFragment(Tail(text)) then Tail(text) else ""
  }

  /** What has been sent of the last, unfinished line of `sent + text`, when `sent` was sent before. */
  function SentAhead(sent: string, text: string): string {
    var earlier := if HasLine(text) then "" else sent;
    if CouldBeExitMarkerFragment(Tail(text)) then earlier else earlier + Tail(text)
  }

  lemma SentAndHeld(sent: string, text: string)
    requires '\n' !in sent
    ensures '\n' !in SentAhead(sent, text) && '\n' !in HeldBack(text)
    ensures SentAhead(sent, text) + HeldBack(text) == (if HasLine(text) then "" else sent) + Tail(text)
  {
    TailHasNoNewline(text);
  }

  /** What one drain gives out is the complete lines and what is newly sent ahead. */
  lemma DrainSends(text: string)
    ensures Drain(text, false) == (DrainLines(text).Then(Drained(SentAhead("", text), [])), HeldBack(text))
  {
    ThenNothing(DrainLines(text));
    assert "" + Tail(text) == Tail(text);
  }

  /** The first line of `sent + text` gives out what was sent ahead and then the line, if it is kept both ways. */
  lemma LineBehindWhatWasSent(sent: string, text: string)
    requires '\n' !in sent && HasLine(text)
    requires sent != "" ==> Kept(sent + FirstLine(text)) && Kept(FirstLine(text))
    ensures Drained(sent, []).Then(DrainLines(text)) == DrainLines(sent + text)
    ensures Tail(sent + text) == Tail(text)
  {
    FirstLineBehind(sent, text);
    var line, rest := FirstLine(text), DrainLines(AfterLine(text));
    if sent == "" {
      assert sent + text == text;
      ThenNothing(DrainLines(text));
    } else {
      HeadShows(sent, line);
      ThenIsAssociative(Drained(sent, []), DrainLine(line), rest);
    }
  }

  lemma FirstLineBehind(sent: string, text: string)
    requires '\n' !in sent && HasLine(text)
    ensures HasLine(sent + text) && FirstLine(sent + text) == sent + FirstLine(text) && AfterLine(sent + text) == AfterLine(text)
  {
    NewlineAt(sent + text, |sent| + NewlineIndex(text));
  }

  /** One chunk that ends a line, of a text that goes on with `more`. */
  lemma ChunkWithLine(sent: string, text: string, more: string)
    requires '\n' !in sent && HasLine(text)
    requires sent != "" ==> Kept(sent + FirstLine(text)) && Kept(FirstLine(text))
    ensures Drained(sent, []).Then(DrainLines(text)).Then(Drain(Tail(text) + more, true).0) == Drain(sent + text + more, true).0
  {
    LineBehindWhatWasSent(sent, text);
    FlushInTwoSteps(sent + text, more);
  }

  /** One chunk, of a text that goes on with `more`. */
  lemma ChunkOfManyCuts(sent: string, text: string, more: string)
    requires '\n' !in sent
    requires sent != "" && HasLine(text) ==> Kept(sent + FirstLine(text)) && Kept(FirstLine(text))
    ensures var done := if HasLine(text) then Drained(sent, []).Then(DrainLines(text)) else NOTHING;
            var line := SentAhead(sent, text) + HeldBack(text);
            done.Then(Drain(line + more, true).0) == Drain(sent + text + more, true).0
  {
    LineSoFar(sent, text);
    if HasLine(text) {
      ChunkWithLine(sent, text, more);
    } else {
      ThenNothing(Drain(sent + text + more, true).0);
    }
  }

  lemma LineSoFar(sent: string, text: string)
    requires '\n' !in sent
    ensures SentAhead(sent, text) + HeldBack(text) == if HasLine(text) then Tail(text) else sent + text
  {
    SentAndHeld(sent, text);
    if HasLine(text) {
      assert "" + Tail(text) == Tail(text);
    }
  }

  /** What was sent ahead before and what the drain gives out are the finished lines and what is now sent ahead. */
  lemma DrainAfterSent(sent: string, text: string)
    ensures var done := if HasLine(text) then Drained(sent, []).Then(DrainLines(text)) else NOTHING;
            Drained(sent, []).Then(Drain(text, false).0) == done.Then(Drained(SentAhead(sent, text), []))
  {
    DrainSends(text);
    if HasLine(text) {
      ThenIsAssociative(Drained(sent, []), DrainLines(text), Drained(SentAhead("", text), []));
    } else {
      ThenNothing(Drained(SentAhead("", text), []));
      ThenNothing(Drained(SentAhead(sent, text), []));
    }
  }

  lemma ManyCutsEnd(sent: string, pending: string)
    requires '\n' !in sent && '\n' !in pending
    ensures Drained(sent, []).Then(Stream(pending, [])) == Drain(sent + pending, true).0
  {
    StreamOfNothing(pending);
    DrainWithoutLine(pending);
    DrainWithoutLine(sent + pending);
  }

  lemma TextGoesOn(sent: string, pending: string, chunks: seq<string>)
    requires chunks != []
    ensures sent + (pending + chunks[0]) + Concat(chunks[1..]) == sent + pending + Concat(chunks)
  {
  }

  lemma NothingGoesOn(text: string)
    ensures text + Concat([]) == text
  {
  }

  lemma {:induction false} ManyCutsFrom(sent: string, pending: string, chunks: seq<string>)
    requires '\n' !in sent && '\n' !in pending && NoCutShows(sent, pending, chunks)
    ensures Drained(sent, []).Then(Stream(pending, chunks)) == Drain(sent + pending + Concat(chunks), true).0
    decreases |chunks|
  {
    if chunks == [] {
      ManyCutsEnd(sent, pending);
      NothingGoesOn(sent + pending);
    } else {
      var text := pending + chunks[0];
      SentAndHeld(sent, text);
      ManyCutsFrom(SentAhead(sent, text), HeldBack(text), chunks[1..]);
      ManyCutsStep(sent, pending, chunks);
      ChunkOfManyCuts(sent, text, Concat(chunks[1..]));
      TextGoesOn(sent, pending, chunks);
    }
  }

  lemma ManyCutsStep(sent: string, pending: string, chunks: seq<string>)
    requires chunks != []
    ensures var text := pending + chunks[0];
            var done := if HasLine(text) then Drained(sent, []).Then(DrainLines(text)) else NOTHING;
            Drained(sent, []).Then(Stream(pending, chunks)) ==
            done.Then(Drained(SentAhead(sent, text), []).Then(Stream(HeldBack(text), chunks[1..])))
  {
    var text := pending + chunks[0];
    var done := if HasLine(text) then Drained(sent, []).Then(DrainLines(text)) else NOTHING;
    var later := Stream(HeldBack(text), chunks[1..]);
    StreamStep(pending, chunks);
    DrainSends(text);
    DrainAfterSent(sent, text);
    ThenIsAssociative(Drained(sent, []), Drain(text, false).0, later);
    ThenIsAssociative(done, Drained(SentAhead(sent, text), []), later);
  }

  /** However a stream is cut, if each line that something is sent ahead of is kept both ways, the result is that of the whole text. */
  lemma ManyCutsAreInvisible(chunks: seq<string>)
    requires NoCutShows("", "", chunks)
    ensures Stream("", chunks) == Stream("", [Concat(chunks)])
  {
    var text := Concat(chunks);
    ManyCutsFrom("", "", chunks);
    StreamOfOne(text);
    ThenNothing(Stream("", chunks));
    assert "" + "" + text == text;
  }

  /** Nothing is ever sent ahead of a line at safe cuts. */
  lemma {:induction false} SafeCutsDoNotShow(before: string, chunks: seq<string>)
    requires SafeCuts(before, chunks)
    ensures NoCutShows("", Tail(before), chunks)
    decreases |chunks|
  {
    if |chunks| > 1 {
      var text, next := Tail(before) + chunks[0], before + chunks[0];
      DrainInTwoSteps(before, chunks[0]);
      SafeCutsDoNotShow(next, chunks[1..]);
      assert SentAhead("", text) == "" && HeldBack(text) == Tail(next);
    } else if |chunks| == 1 {
      assert chunks[1..] == [];
    }
  }

  /** So if every cut is safe, the result is that of the whole text. */
  lemma SafeCutsAreInvisible(chunks: seq<string>)
    requires SafeCuts("", chunks)
    ensures Stream("", chunks) == Stream("", [Concat(chunks)])
  {
    SafeCutsDoNotShow("", chunks);
    ManyCutsAreInvisible(chunks);
  }

  // ----- Conservation

  datatype Segment =
    | Line(text: string)                               // a complete line, passed on
    | Part(text: string)                               // a piece of an unfinished line, passed on
    | Marker(text: string, completion: Completion)     // a complete line, reported and dropped
    | Continuation(text: string)                       // a complete line, dropped
  {
    function Effect(): Drained {
      match this
      case Line(text) => Drained(text, [])
      case Part(text) => Drained(text, [])
      case Marker(_, completion) => Drained("", [completion])
      case Continuation(_) => NOTHING
    }

    /** The segment is what its name says, no more and no less. */
    ghost predicate Justified() {
      match this
      case Line(text) => IsLine(text) && ParseMetadata(text).None? && !IsContinuation(text)
      case Part(text) => '\n' !in text
      case Marker(text, completion) => IsLine(text) && ParseMetadata(text) == Some(completion)
      case Continuation(text) => IsLine(text) && ParseMetadata(text).None? && IsContinuation(text)
    }
  }

  /** Ends in a newline and has no other. */
  predicate IsLine(s: string) {
    s != "" && NewlineIndex(s) == |s| - 1
  }

  function Texts(segments: seq<Segment>): string {
    if segments == [] then "" else segments[0].text + Texts(segments[1..])
  }

  function Effects(segments: seq<Segment>): Drained {
    if segments == [] then NOTHING else segments[0].Effect().Then(Effects(segments[1..]))
  }

  ghost predicate Accounts(segments: seq<Segment>, text: string, drained: Drained) {
    && Texts(segments) == text
    && Effects(segments) == drained
    && forall i | 0 <= i < |segments| :: segments[i].Justified()
  }

  lemma {:induction false} TextsJoin(a: seq<Segment>, b: seq<Segment>)
    ensures Texts(a + b) == Texts(a) + Texts(b)
    decreases |a|
  {
    if a == [] {
      assert a + b == b;
    } else {
      TextsJoin(a[1..], b);
      assert (a + b)[1..] == a[1..] + b;
    }
  }

  lemma {:induction false} EffectsJoin(a: seq<Segment>, b: seq<Segment>)
    ensures Effects(a + b) == Effects(a).Then(Effects(b))
    decreases |a|
  {
    if a == [] {
      assert a + b == b;
      ThenNothing(Effects(b));
    } else {
      EffectsJoin(a[1..], b);
      assert (a + b)[1..] == a[1..] + b;
      ThenIsAssociative(a[0].Effect(), Effects(a[1..]), Effects(b));
    }
  }

  lemma AccountsJoin(a: seq<Segment>, b: seq<Segment>, s: string, t: string, x: Drained, y: Drained)
    requires Accounts(a, s, x) && Accounts(b, t, y)
    ensures Accounts(a + b, s + t, x.Then(y))
  {
    TextsJoin(a, b);
    EffectsJoin(a, b);
  }

  lemma OneAccounts(segment: Segment)
    requires segment.Justified()
    ensures Accounts([segment], segment.text, segment.Effect())
  {
    ThenNothing(segment.Effect());
    assert Texts([segment]) == segment.text + Texts([]) == segment.text;
    assert Effects([segment]) == segment.Effect().Then(Effects([])) == segment.Effect();
  }

  lemma LineAccounts(line: string) returns (segment: Segment)
    requires IsLine(line)
    ensures Accounts([segment], line, DrainLine(line))
  {
    segment := match ParseMetadata(line)
               case Some(completion) => Marker(line, completion)
               case None => if IsContinuation(line) then Continuation(line) else Line(line);
    OneAccounts(segment);
  }

  lemma Reassociate<T>(a: seq<T>, b: seq<T>, c: seq<T>)
    ensures a + (b + c) == a + b + c
  {
  }

  lemma LineSplits(s: string)
    requires HasLine(s)
    ensures s == FirstLine(s) + AfterLine(s)
    ensures IsLine(FirstLine(s))
  {
    NewlineAt(FirstLine(s), NewlineIndex(s));
  }

  lemma {:induction false} LinesAccount(s: string) returns (segments: seq<Segment>, done: string)
    ensures s == done + Tail(s)
    ensures Accounts(segments, done, DrainLines(s))
    decreases |s|
  {
    if HasLine(s) {
      var line, after := FirstLine(s), AfterLine(s);
      LineSplits(s);
      var first := LineAccounts(line);
      var others, rest := LinesAccount(after);
      AccountsJoin([first], others, line, rest, DrainLine(line), DrainLines(after));
      segments, done := [first] + others, line + rest;
      Reassociate(line, rest, Tail(s));
    } else {
      segments, done := [], "";
    }
  }

  lemma DrainAccounts(s: string, flushAll: bool) returns (segments: seq<Segment>, done: string)
    ensures s == done + Drain(s, flushAll).1
    ensures Accounts(segments, done, Drain(s, flushAll).0)
  {
    segments, done := LinesAccount(s);
    if flushAll || !CouldBeExitMarkerFragment(Tail(s)) {
      var part := Part(Tail(s));
      TailHasNoNewline(s);
      OneAccounts(part);
      AccountsJoin(segments, [part], done, Tail(s), DrainLines(s), Drained(Tail(s), []));
      segments, done := segments + [part], s;
    }
  }

  /**
   Whatever the chunks, the text received so far is a sequence of segments and then the buffer:
   the segments passed on are the output, and each dropped one is a complete line that is a
   marker, whose completion is reported in its place, or a continuation prompt.
   */
  lemma {:induction false} FeedAccounts(pending: string, chunks: seq<string>) returns (segments: seq<Segment>, done: string)
    ensures pending + Concat(chunks) == done + Feed(pending, chunks).1
    ensures Accounts(segments, done, Feed(pending, chunks).0)
    decreases |chunks|
  {
    if chunks == [] {
      segments, done := [], "";
    } else {
      var received := pending + chunks[0];
      var rest := Drain(received, false).1;
      var a, s := DrainAccounts(received, false);
      var b, t := FeedAccounts(rest, chunks[1..]);
      segments, done := a + b, s + t;
      AccountsJoin(a, b, s, t, Drain(received, false).0, Feed(rest, chunks[1..]).0);
      Reassociate(pending, chunks[0], Concat(chunks[1..]));
      Reassociate(s, rest, Concat(chunks[1..]));
      Reassociate(s, t, Feed(pending, chunks).1);
    }
  }

  /** After the flush nothing is held back. */
  lemma StreamAccounts(chunks: seq<string>) returns (segments: seq<Segment>)
    ensures Accounts(segments, Concat(chunks), Stream("", chunks))
  {
    var a, s := FeedAccounts("", chunks);
    var (drained, end) := Feed("", chunks);
    var b, t := DrainAccounts(end, true);
    AccountsJoin(a, b, s, t, drained, Drain(end, true).0);
    segments := a + b;
    assert "" + Concat(chunks) == Concat(chunks);
    assert s + t == Concat(chunks);
  }
}
