/**
 Recognising the marker lines that the shell prints around commands
 (services/runner/internal/http/handlers/terminal_ws.go, parseTerminalCommandMetadataLine,
 normalizeTerminalMarkerLine and the regular expressions above them).
 */
module MarkerLines {
  import opened Common
  import opened Text
  import Base64

  const EXIT_MARKER := "__GITGYM_COMMAND_EXIT__"
  const CONTINUATION_MARKER := "__GITGYM_CONTINUATION_PROMPT__"
  const ESC := 0x1b as char

  datatype Completion = Completion(command: string, exitCode: int)

  // ----- ANSI control sequences: ESC [ [0-9;?]* [ -/]* [@-~]

  predicate IsParameter(c: char) {
    '0' <= c <= '9' || c == ';' || c == '?'
  }

  predicate IsIntermediate(c: char) {
    ' ' <= c <= '/'
  }

  function Skip(s: string, skips: char -> bool): (n: nat)
    ensures n <= |s|
    ensures n < |s| ==> !skips(s[n])
    ensures forall i | 0 <= i < n :: skips(s[i])
  {
    if s == "" || !skips(s[0]) then 0 else 1 + Skip(s[1..], skips)
  }

  /** The length of the control sequence that `s` starts with, or 0. */
  function ControlLength(s: string): (n: nat)
    ensures n <= |s|
    ensures n > 0 ==> s[0] == ESC
  {
    if |s| < 2 || s[0] != ESC || s[1] != '[' then 0
    else
      var i := 2 + Skip(s[2..], IsParameter);
      var j := i + Skip(s[i..], IsIntermediate);
      if j < |s| && '@' <= s[j] <= '~' then j + 1 else 0
  }

  function StripControls(s: string): string {
    if s == "" then ""
    else if ControlLength(s) > 0 then StripControls(s[ControlLength(s)..])
    else [s[0]] + StripControls(s[1..])
  }

  function Normalize(line: string): string {
    StripControls(TrimSuffixChar(TrimSuffixChar(line, '\n'), '\r'))
  }

  // ----- Marker lines

  predicate NotColon(c: char) {
    c != ':'
  }

  /** The two groups of `^(-?\d+):([A-Za-z0-9+/=]+)\r?$`, if it matches. */
  function MatchBody(body: string): Option<(string, string)> {
    var colon := Skip(body, NotColon);
    if colon == |body| || !IsNumeral(body[..colon]) then None
    else
      var payload := TrimSuffixChar(body[colon + 1..], '\r');
      if Base64.IsPayload(payload) then Some((body[..colon], payload)) else None
  }

  /** The same after the marker and a colon. */
  function MatchMetadata(s: string): Option<(string, string)> {
    var prefix := EXIT_MARKER + ":";
    if HasPrefix(s, prefix) then MatchBody(s[|prefix|..]) else None
  }

  function ParseMetadata(line: string): Option<Completion> {
    match MatchMetadata(Normalize(line))
    case None => None
    case Some((numeral, payload)) =>
      if !IsNumeral(numeral) || Atoi(numeral).None? then None
      else
        match Base64.Decode(payload)
        case None => None
        case Some(bytes) =>
          var command := Go.Trim(bytes);
          if command == "" then None else Some(Completion(command, Atoi(numeral).value))
  }

  predicate IsContinuation(line: string) {
    var normalized := Normalize(line);
    normalized == CONTINUATION_MARKER || normalized == CONTINUATION_MARKER + "\r"
  }

  function BodyText(numeral: string, payload: string): string {
    numeral + ":" + payload
  }

  /** What the shell prints when a command has ended. */
  function MetadataText(numeral: string, payload: string): string {
    EXIT_MARKER + ":" + BodyText(numeral, payload)
  }

  /** `s` is `text`, or `text` and a carriage return. */
  predicate IsWithOptionalReturn(s: string, text: string) {
    s == text || s == text + "\r"
  }

  lemma {:induction false} SkipTo(s: string, skips: char -> bool, n: nat)
    requires n <= |s|
    requires n < |s| ==> !skips(s[n])
    requires forall i | 0 <= i < n :: skips(s[i])
    ensures Skip(s, skips) == n
  {
    if n > 0 {
      SkipTo(s[1..], skips, n - 1);
    }
  }

  lemma NumeralHasNoColon(numeral: string)
    requires IsNumeral(numeral)
    ensures forall i | 0 <= i < |numeral| :: numeral[i] != ':'
  {
    if HasPrefix(numeral, "-") {
      assert forall i | 1 <= i < |numeral| :: numeral[i] == numeral[1..][i - 1];
    }
  }

  lemma BodySplits(numeral: string, rest: string)
    requires IsNumeral(numeral)
    ensures var body := BodyText(numeral, rest);
            && Skip(body, NotColon) == |numeral| < |body|
            && body[..|numeral|] == numeral && body[|numeral| + 1..] == rest
  {
    NumeralHasNoColon(numeral);
    SkipTo(BodyText(numeral, rest), NotColon, |numeral|);
  }

  lemma BodyMatches(body: string, numeral: string, payload: string)
    requires IsNumeral(numeral) && Base64.IsPayload(payload)
    requires IsWithOptionalReturn(body, BodyText(numeral, payload))
    ensures MatchBody(body) == Some((numeral, payload))
  {
    var rest := if body == BodyText(numeral, payload) then payload else payload + "\r";
    assert body == BodyText(numeral, rest);
    BodySplits(numeral, rest);
    assert TrimSuffixChar(rest, '\r') == payload;
  }

  lemma MatchedBody(body: string)
    requires MatchBody(body).Some?
    ensures var (numeral, payload) := MatchBody(body).value;
            && IsNumeral(numeral) && Base64.IsPayload(payload)
            && IsWithOptionalReturn(body, BodyText(numeral, payload))
  {
    var (numeral, payload) := MatchBody(body).value;
    var colon := Skip(body, NotColon);
    var rest := body[colon + 1..];
    assert body == BodyText(numeral, rest);
    assert rest == payload || rest == payload + "\r";
  }

  lemma PrefixedText(prefix: string, s: string, text: string)
    requires prefix <= s
    ensures IsWithOptionalReturn(s, prefix + text) <==> IsWithOptionalReturn(s[|prefix|..], text)
  {
    assert s == prefix + s[|prefix|..];
    assert prefix + text + "\r" == prefix + (text + "\r");
    assert (prefix + text)[|prefix|..] == text;
    assert (prefix + (text + "\r"))[|prefix|..] == text + "\r";
  }

  /** The recogniser accepts the lines of the pattern, splits them as the pattern does, and accepts no others. */
  lemma MatchIsThePattern(s: string, numeral: string, payload: string)
    ensures MatchMetadata(s) == Some((numeral, payload))
       <==> && IsNumeral(numeral) && Base64.IsPayload(payload)
            && IsWithOptionalReturn(s, MetadataText(numeral, payload))
  {
    var prefix := EXIT_MARKER + ":";
    if HasPrefix(s, prefix) {
      var body := s[|prefix|..];
      PrefixedText(prefix, s, BodyText(numeral, payload));
      if MatchBody(body) == Some((numeral, payload)) {
        MatchedBody(body);
      } else if IsNumeral(numeral) && Base64.IsPayload(payload) && IsWithOptionalReturn(body, BodyText(numeral, payload)) {
        BodyMatches(body, numeral, payload);
      }
    } else {
      assert prefix <= MetadataText(numeral, payload);
    }
  }

  lemma MatchEndsInPayload(s: string)
    ensures MatchMetadata(s).Some? ==> s != "" && s[|s| - 1] != ':'
  {
    if MatchMetadata(s).Some? {
      var (numeral, payload) := MatchMetadata(s).value;
      MatchIsThePattern(s, numeral, payload);
      assert payload[|payload| - 1] != ':';
    }
  }

  lemma {:induction false} StripControlsOfPlainText(s: string)
    requires ESC !in s
    ensures StripControls(s) == s
  {
    if s != "" {
      assert s[0] != ESC;
      StripControlsOfPlainText(s[1..]);
    }
  }

  lemma MarkerLinesArePlain(numeral: string, payload: string)
    requires IsNumeral(numeral) && Base64.IsPayload(payload)
    ensures ESC !in MetadataText(numeral, payload)
    ensures '\n' !in MetadataText(numeral, payload)
    ensures var s := MetadataText(numeral, payload); s[|s| - 1] != '\r'
  {
    if HasPrefix(numeral, "-") {
      assert forall i | 1 <= i < |numeral| :: numeral[i] == numeral[1..][i - 1];
    }
    assert ESC !in EXIT_MARKER && '\n' !in EXIT_MARKER;
    assert ESC !in numeral && '\n' !in numeral && ESC !in payload && '\n' !in payload;
    var s := MetadataText(numeral, payload);
    assert s[|s| - 1] == payload[|payload| - 1];
  }

  lemma NormalizeMarkerLine(text: string, end: string)
    requires text != "" && ESC !in text && text[|text| - 1] != '\r'
    requires end == "\n" || end == "\r\n"
    ensures Normalize(text + end) == text
  {
    var line := text + end;
    if end == "\n" {
      assert line[..|line| - 1] == text;
    } else {
      assert line[..|line| - 1] == text + "\r";
      assert (text + "\r")[..|text|] == text;
    }
    StripControlsOfPlainText(text);
  }

  /**
   A marker line carrying an exit code and the base64 of a command gives that exit code and the
   trimmed command, and is passed over exactly when the command is blank.
   */
  lemma MarkerLineRoundTrip(command: string, exitCode: int, end: string)
    requires Base64.IsBytes(command)
    requires MIN_INT <= exitCode <= MAX_INT
    requires end == "\n" || end == "\r\n"
    ensures ParseMetadata(MetadataText(Itoa(exitCode), Base64.Encode(command)) + end) ==
            if Go.Trim(command) == "" then None else Some(Completion(Go.Trim(command), exitCode))
  {
    var numeral, payload := Itoa(exitCode), Base64.Encode(command);
    var text := MetadataText(numeral, payload);
    ItoaRoundTrip(exitCode);
    if command == "" {
      EmptyCommandLineIsNoMarker(numeral, end);
    } else {
      Base64.EncodingIsPayload(command);
      Base64.RoundTrip(command);
      MarkerLinesArePlain(numeral, payload);
      NormalizeMarkerLine(text, end);
      MatchIsThePattern(text, numeral, payload);
    }
  }

  lemma EmptyCommandLineIsNoMarker(numeral: string, end: string)
    requires IsNumeral(numeral)
    requires end == "\n" || end == "\r\n"
    ensures ParseMetadata(MetadataText(numeral, "") + end).None?
    ensures Go.Trim("") == ""
  {
    var text := MetadataText(numeral, "");
    MarkerLinesArePlain(numeral, "A");
    assert forall i | 0 <= i < |text| :: text[i] == MetadataText(numeral, "A")[i];
    assert text[|text| - 1] == ':';
    NormalizeMarkerLine(text, end);
    MatchEndsInPayload(text);
  }

  // ----- Commands with spaces around them

  /** A marker line reports the command that stands between spaces, however many, and none if there is nothing else. */
  lemma SpacedCommandRoundTrip(before: string, command: string, after: string, exitCode: int, end: string)
    requires Base64.IsBytes(before + command + after)
    requires IsBetweenSpaces(Go, before + command + after, before, command, after) && NoSpaceAtTheEnds(Go, command)
    requires MIN_INT <= exitCode <= MAX_INT && (end == "\n" || end == "\r\n")
    ensures ParseMetadata(MetadataText(Itoa(exitCode), Base64.Encode(before + command + after)) + end) ==
            if command == "" then None else Some(Completion(command, exitCode))
  {
    TrimOfSpaced(Go, before, command, after);
    MarkerLineRoundTrip(before + command + after, exitCode, end);
  }

  // ----- What exactly is a marker line

  /** The line, but for its end and control sequences, is a marker, a number and the base64 of a command between spaces. */
  ghost predicate IsReport(line: string, numeral: string, payload: string, before: string, command: string, after: string, exitCode: int) {
    && IsNumeral(numeral) && Base64.IsPayload(payload)
    && IsWithOptionalReturn(Normalize(line), MetadataText(numeral, payload))
    && Atoi(numeral) == Some(exitCode)
    && Base64.Decode(payload) == Some(before + command + after)
    && IsBetweenSpaces(Go, before + command + after, before, command, after)
    && NoSpaceAtTheEnds(Go, command) && command != ""
  }

  lemma ReportIsParsed(line: string, numeral: string, payload: string, before: string, command: string, after: string, exitCode: int)
    requires IsReport(line, numeral, payload, before, command, after, exitCode)
    ensures ParseMetadata(line) == Some(Completion(command, exitCode))
  {
    MatchIsThePattern(Normalize(line), numeral, payload);
    TrimOfSpaced(Go, before, command, after);
  }

  lemma ParsedIsReport(line: string)
    requires ParseMetadata(line).Some?
    ensures var completion := ParseMetadata(line).value;
            exists numeral, payload, before, after ::
              IsReport(line, numeral, payload, before, completion.command, after, completion.exitCode)
  {
    var (numeral, payload) := MatchMetadata(Normalize(line)).value;
    var bytes := Base64.Decode(payload).value;
    MatchIsThePattern(Normalize(line), numeral, payload);
    TrimTrims(Go, bytes);
    TrimmedIff(Go, Go.Trim(bytes));
    var before, after := TrimIsBetweenSpaces(Go, bytes);
    assert IsReport(line, numeral, payload, before, Go.Trim(bytes), after, Atoi(numeral).value);
  }

  /** A line is taken for a report of this command and exit code exactly if it is one. */
  lemma ReportsAreParsed(line: string, completion: Completion)
    ensures ParseMetadata(line) == Some(completion) <==>
            exists numeral, payload, before, after ::
              IsReport(line, numeral, payload, before, completion.command, after, completion.exitCode)
  {
    if ParseMetadata(line) == Some(completion) {
      ParsedIsReport(line);
    }
    forall numeral, payload, before, after |
      IsReport(line, numeral, payload, before, completion.command, after, completion.exitCode)
      ensures ParseMetadata(line) == Some(completion)
    {
      ReportIsParsed(line, numeral, payload, before, completion.command, after, completion.exitCode);
    }
  }

  // ----- What exactly is stripped

  ghost predicate All(s: string, p: char -> bool) {
    forall i | 0 <= i < |s| :: p(s[i])
  }

  function ControlText(parameters: string, intermediates: string, final: char): string {
    [ESC, '['] + parameters + intermediates + [final]
  }

  ghost predicate IsControlOf(u: string, parameters: string, intermediates: string, final: char) {
    && All(parameters, IsParameter) && All(intermediates, IsIntermediate) && '@' <= final <= '~'
    && u == ControlText(parameters, intermediates, final)
  }

  /** One control sequence and no more. */
  ghost predicate IsControl(u: string) {
    exists parameters, intermediates, final :: IsControlOf(u, parameters, intermediates, final)
  }

  lemma ControlLengthOf(parameters: string, intermediates: string, final: char, rest: string)
    requires All(parameters, IsParameter) && All(intermediates, IsIntermediate) && '@' <= final <= '~'
    ensures ControlLength(ControlText(parameters, intermediates, final) + rest) == 3 + |parameters| + |intermediates|
  {
    var s := ControlText(parameters, intermediates, final) + rest;
    var i := 2 + |parameters|;
    assert s[2..] == parameters + (intermediates + [final] + rest);
    SkipTo(s[2..], IsParameter, |parameters|);
    assert s[i..] == intermediates + ([final] + rest);
    SkipTo(s[i..], IsIntermediate, |intermediates|);
  }

  lemma SplitInParts(s: string, i: nat, j: nat)
    requires 2 <= i <= j < |s| && s[0] == ESC && s[1] == '['
    ensures s[..j + 1] == ControlText(s[2..i], s[i..j], s[j])
  {
    assert s[..2] == [ESC, '['];
    assert s[..i] == s[..2] + s[2..i];
    assert s[..j] == s[..i] + s[i..j];
  }

  lemma ControlAt(s: string)
    requires ControlLength(s) > 0
    ensures IsControl(s[..ControlLength(s)])
  {
    var i := 2 + Skip(s[2..], IsParameter);
    var j := i + Skip(s[i..], IsIntermediate);
    SplitInParts(s, i, j);
    assert IsControlOf(s[..j + 1], s[2..i], s[i..j], s[j]);
  }

  lemma ControlHasLength(u: string, rest: string)
    requires IsControl(u)
    ensures u != "" && ControlLength(u + rest) == |u|
  {
    var parameters, intermediates, final :| IsControlOf(u, parameters, intermediates, final);
    ControlLengthOf(parameters, intermediates, final, rest);
  }

  lemma SplitAt(s: string, n: nat)
    requires n <= |s|
    ensures s == s[..n] + s[n..]
  {
  }

  /** A control sequence is recognised wherever one begins, with its whole length, and nowhere else. */
  lemma ControlLengthIff(s: string, n: nat)
    requires 0 < n <= |s|
    ensures ControlLength(s) == n <==> IsControl(s[..n])
  {
    SplitAt(s, n);
    if ControlLength(s) == n {
      ControlAt(s);
    } else if IsControl(s[..n]) {
      ControlHasLength(s[..n], s[n..]);
    }
  }

  lemma StripOther(c: char, rest: string)
    requires ControlLength([c] + rest) == 0
    ensures StripControls([c] + rest) == [c] + StripControls(rest)
  {
    assert ([c] + rest)[1..] == rest;
  }

  lemma PlainIsNoControl(c: char, rest: string)
    requires c != ESC
    ensures ControlLength([c] + rest) == 0
  {
  }

  lemma TakeOne(text: string, rest: string)
    requires text != ""
    ensures text + rest == [text[0]] + (text[1..] + rest)
  {
  }

  lemma {:induction false} StripPlain(text: string, rest: string)
    requires ESC !in text
    ensures StripControls(text + rest) == text + StripControls(rest)
  {
    if text == "" {
      assert text + rest == rest;
    } else {
      StripPlain(text[1..], rest);
      PlainIsNoControl(text[0], text[1..] + rest);
      StripOther(text[0], text[1..] + rest);
      TakeOne(text, rest);
      TakeOne(text, StripControls(rest));
    }
  }

  lemma StripControl(u: string, rest: string)
    requires IsControl(u)
    ensures StripControls(u + rest) == StripControls(rest)
  {
    ControlHasLength(u, rest);
    assert (u + rest)[|u|..] == rest;
  }

  lemma NoControlAt(s: string)
    requires forall n | 0 < n <= |s| :: !IsControl(s[..n])
    ensures ControlLength(s) == 0
  {
    if ControlLength(s) > 0 {
      ControlAt(s);
    }
  }

  /** Text stays and a control sequence goes. */
  lemma StripTakesControls(text: string, u: string, rest: string)
    requires ESC !in text && IsControl(u)
    ensures StripControls(text + (u + rest)) == text + StripControls(rest)
  {
    StripPlain(text, u + rest);
    StripControl(u, rest);
  }

  /** An escape that begins no control sequence stays. */
  lemma StripKeepsOtherEscapes(text: string, rest: string)
    requires ESC !in text && forall n | 0 < n <= |[ESC] + rest| :: !IsControl(([ESC] + rest)[..n])
    ensures StripControls(text + ([ESC] + rest)) == text + ([ESC] + StripControls(rest))
  {
    StripPlain(text, [ESC] + rest);
    NoControlAt([ESC] + rest);
    StripOther(ESC, rest);
  }

  lemma StripAround(u: string, text: string, v: string)
    requires IsControl(u) && IsControl(v) && ESC !in text
    ensures StripControls(u + (text + v)) == text
  {
    StripControl(u, text + v);
    StripPlain(text, v);
    StripControl(v, "");
    assert v + "" == v && text + "" == text;
  }

  lemma Grouped(u: string, text: string, v: string, end: string)
    ensures u + text + v + end == u + (text + v) + end
  {
  }

  lemma LastOf(u: string, v: string)
    requires v != ""
    ensures u + v != "" && (u + v)[|u + v| - 1] == v[|v| - 1]
  {
  }

  /** A marker line counts with control sequences around it, as a colouring prompt prints them. */
  lemma ColouredLinesCount(u: string, text: string, v: string, end: string)
    requires IsControl(u) && IsControl(v) && ESC !in text && text != "" && text[|text| - 1] != '\r'
    requires end == "\n" || end == "\r\n"
    ensures Normalize(u + text + v + end) == Normalize(text + end)
  {
    NormalizeMarkerLine(text, end);
    StripAround(u, text, v);
    ControlsEndInAFinal(v);
    LastOf(text, v);
    LastOf(u, text + v);
    TrimmedLine(u + (text + v), end);
    Grouped(u, text, v, end);
  }

  lemma ControlsEndInAFinal(u: string)
    requires IsControl(u)
    ensures u != "" && u[|u| - 1] != '\r' && u[|u| - 1] != '\n'
  {
  }

  lemma EndIsCutOff(text: string, end: string)
    requires text != "" && text[|text| - 1] != '\r' && (end == "\n" || end == "\r\n")
    ensures WithoutEnd(text + end) == text
  {
    TrimOne(text, '\n');
    TrimOne(text, '\r');
    TrimOne(text + "\r", '\n');
    assert text + "\r\n" == text + "\r" + "\n";
  }

  lemma TrimmedLine(text: string, end: string)
    requires text != "" && text[|text| - 1] != '\r' && (end == "\n" || end == "\r\n")
    ensures Normalize(text + end) == StripControls(text)
  {
    var line := text + end;
    EndIsCutOff(text, end);
    assert WithoutEnd(line) == text;
  }

  // ----- What exactly is a continuation line

  function Returns(n: nat): string {
    if n == 0 then "" else if n == 1 then "\r" else "\r\r"
  }

  /** The marker, up to two carriage returns, and perhaps a newline. */
  predicate IsMarkerText(marker: string, line: string, crs: nat, newline: bool) {
    crs <= 2 && line == marker + Returns(crs) + if newline then "\n" else ""
  }

  function WithoutEnd(line: string): string {
    TrimSuffixChar(TrimSuffixChar(line, '\n'), '\r')
  }

  lemma PlainLine(line: string)
    requires ESC !in line
    ensures Normalize(line) == WithoutEnd(line)
  {
    StripControlsOfPlainText(WithoutEnd(line));
  }

  lemma TrimOne(s: string, c: char)
    ensures TrimSuffixChar(s + [c], c) == s
  {
  }

  lemma UntrimOne(s: string, c: char)
    ensures s == TrimSuffixChar(s, c) || s == TrimSuffixChar(s, c) + [c]
  {
  }

  lemma MarkerTextHasNoEnd(marker: string, line: string)
    requires WithoutEnd(line) == marker || WithoutEnd(line) == marker + "\r"
    ensures exists crs: nat, newline: bool :: IsMarkerText(marker, line, crs, newline)
  {
    var a := TrimSuffixChar(line, '\n');
    var b := WithoutEnd(line);
    UntrimOne(line, '\n');
    UntrimOne(a, '\r');
    var crs := (if b == marker then 0 else 1) + (if a == b then 0 else 1);
    assert marker + "\r" + "\r" == marker + "\r\r" && marker + "" == marker;
    assert a == marker + Returns(crs);
    assert a + "" == a;
    assert IsMarkerText(marker, line, crs, line != a);
  }

  lemma MarkerTextWithoutEnd(marker: string, line: string, crs: nat, newline: bool)
    requires marker != "" && marker[|marker| - 1] != '\r' && marker[|marker| - 1] != '\n'
    requires IsMarkerText(marker, line, crs, newline)
    ensures WithoutEnd(line) == marker || WithoutEnd(line) == marker + "\r"
  {
    var a, b := marker + Returns(crs), marker + Returns(if crs == 2 then 1 else 0);
    TrimOne(a, '\n');
    TrimOne(b, '\r');
    assert a + "" == a;
    assert crs > 0 ==> a == b + "\r";
  }

  /** Without control sequences, a continuation line is its marker, up to two carriage returns, and perhaps a newline. */
  lemma ContinuationIsTheMarker(line: string)
    requires ESC !in line
    ensures IsContinuation(line) <==> exists crs: nat, newline: bool :: IsMarkerText(CONTINUATION_MARKER, line, crs, newline)
  {
    PlainLine(line);
    if IsContinuation(line) {
      MarkerTextHasNoEnd(CONTINUATION_MARKER, line);
    }
    forall crs: nat, newline: bool | IsMarkerText(CONTINUATION_MARKER, line, crs, newline)
      ensures IsContinuation(line)
    {
      MarkerEnds();
      MarkerTextWithoutEnd(CONTINUATION_MARKER, line, crs, newline);
    }
  }

  lemma MarkerEnds()
    ensures CONTINUATION_MARKER != "" && CONTINUATION_MARKER[|CONTINUATION_MARKER| - 1] == '_'
  {
  }
}
