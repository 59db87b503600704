/**
 The command-line tokenizer of the runner
 (services/runner/internal/engine/commands.go, parseCommand and quoteTerminatesToken).

 `Scan` is the scanner's effect on what is left of the input; the method is the loop. The
 two laws about it are `ParseConcatenates` (parsing distributes over whitespace) and
 `RenderedArgumentsParse` (every argument list can be written down).
 */
module CommandParser {
  import opened Common

  datatype ParseError = UnterminatedQuote | CommandRequired

  type ParseResult = Result<seq<string>, ParseError>

  /** No open quote; the scanner's `inQuote` holds a quote mark or this. */
  const NO_QUOTE := '\0'

  datatype Scanner = Scanner(
    parts: seq<string>, current: string, inQuote: char, sawToken: bool, tokenStarted: bool)
  {
    predicate Valid() {
      && (inQuote == NO_QUOTE || IsQuote(inQuote))
      && (tokenStarted || parts != [] ==> sawToken)
      && (sawToken ==> tokenStarted || parts != [])
      && (inQuote != NO_QUOTE ==> tokenStarted)
      && (!tokenStarted ==> current == "")
    }

    function Append(c: char): Scanner {
      this.(current := current + [c], sawToken := true, tokenStarted := true)
    }

    function Open(mark: char): Scanner {
      this.(inQuote := mark, sawToken := true, tokenStarted := true)
    }

    function Flush(): Scanner {
      if !tokenStarted then this
      else this.(parts := parts + [current], current := "", tokenStarted := false)
    }

    /** The same scanner, with `earlier` words already found. */
    function After(earlier: seq<string>): Scanner {
      this.(parts := earlier + parts, sawToken := sawToken || earlier != [])
    }
  }

  const START := Scanner([], "", NO_QUOTE, false, false)

  predicate IsQuote(c: char) {
    c == '"' || c == '\''
  }

  predicate IsSpace(c: char) {
    c == ' ' || c == '\t' || c == '\n' || c == '\r'
  }

  predicate QuoteTerminatesToken(runes: string, quoteIndex: nat) {
    quoteIndex + 1 >= |runes| || IsSpace(runes[quoteIndex + 1])
  }

  function Scan(s: string, st: Scanner): Scanner {
    if s == "" then st
    else if st.inQuote != NO_QUOTE then
      if s[0] == '\\' && |s| > 1 && s[1] == '\\' then Scan(s[2..], st.Append(s[1]))
      else if s[0] == '\\' && |s| > 1 && s[1] == st.inQuote && !QuoteTerminatesToken(s, 1) then
        Scan(s[2..], st.Append(s[1]))
      else if s[0] == st.inQuote then Scan(s[1..], st.(inQuote := NO_QUOTE))
      else Scan(s[1..], st.Append(s[0]))
    else if IsQuote(s[0]) then Scan(s[1..], st.Open(s[0]))
    else if IsSpace(s[0]) then Scan(s[1..], st.Flush())
    else Scan(s[1..], st.Append(s[0]))
  }

  function Finish(st: Scanner): ParseResult {
    if st.inQuote != NO_QUOTE then Err(UnterminatedQuote)
    else
      var done := st.Flush();
      if !done.sawToken || done.parts == [] then Err(CommandRequired) else Ok(done.parts)
  }

  function Parse(raw: string): ParseResult {
    Finish(Scan(raw, START))
  }

  method ParseCommand(raw: string) returns (result: ParseResult)
    ensures result == Parse(raw)
  {
    var st := START;
    var i := 0;
    while i < |raw|
      invariant 0 <= i <= |raw|
      invariant Scan(raw[i..], st) == Scan(raw, START)
    {
      var r := raw[i];
      ghost var rest := raw[i..];
      assert rest[1..] == raw[i + 1..];
      if st.inQuote != NO_QUOTE {
        if i + 1 < |raw| {
          assert rest[2..] == raw[i + 2..];
        }
        if r == '\\' && i + 1 < |raw| && raw[i + 1] == '\\' {
          st := st.Append(raw[i + 1]);
          i := i + 1;
        } else if r == '\\' && i + 1 < |raw| && raw[i + 1] == st.inQuote && !QuoteTerminatesToken(raw, i + 1) {
          st := st.Append(raw[i + 1]);
          i := i + 1;
        } else if r == st.inQuote {
          st := st.(inQuote := NO_QUOTE);
        } else {
          st := st.Append(r);
        }
      } else if IsQuote(r) {
        st := st.Open(r);
      } else if IsSpace(r) {
        st := st.Flush();
      } else {
        st := st.Append(r);
      }
      i := i + 1;
    }

    if st.inQuote != NO_QUOTE {
      return Err(UnterminatedQuote);
    }
    st := st.Flush();
    if !st.sawToken || |st.parts| == 0 {
      return Err(CommandRequired);
    }
    return Ok(st.parts);
  }

  lemma {:induction false} ScanKeepsValid(s: string, st: Scanner)
    requires st.Valid()
    ensures Scan(s, st).Valid()
    decreases |s|
  {
    if s != "" {
      if st.inQuote != NO_QUOTE {
        ScanKeepsValid(s[1..], st.(inQuote := NO_QUOTE));
        ScanKeepsValid(s[1..], st.Append(s[0]));
        if |s| > 1 {
          ScanKeepsValid(s[2..], st.Append(s[1]));
        }
      } else {
        ScanKeepsValid(s[1..], if IsQuote(s[0]) then st.Open(s[0])
                               else if IsSpace(s[0]) then st.Flush()
                               else st.Append(s[0]));
      }
    }
  }

  /** A space right after `a` is outside every lookahead made while scanning `a`. */
  lemma {:induction false} ScanPasses(a: string, space: char, b: string, st: Scanner)
    requires IsSpace(space)
    requires st.Valid()
    ensures Scan(a + [space] + b, st) == Scan([space] + b, Scan(a, st))
    decreases |a|
  {
    var whole := a + [space] + b;
    if a == "" {
      assert whole == [space] + b;
    } else {
      assert whole[1..] == a[1..] + [space] + b;
      if st.inQuote != NO_QUOTE {
        if |a| > 1 {
          assert whole[2..] == a[2..] + [space] + b;
          ScanPasses(a[2..], space, b, st.Append(a[1]));
        }
        ScanPasses(a[1..], space, b, st.(inQuote := NO_QUOTE));
        ScanPasses(a[1..], space, b, st.Append(a[0]));
        assert |a| > 1 ==> QuoteTerminatesToken(whole, 1) == QuoteTerminatesToken(a, 1);
      } else {
        ScanPasses(a[1..], space, b, if IsQuote(a[0]) then st.Open(a[0])
                                     else if IsSpace(a[0]) then st.Flush()
                                     else st.Append(a[0]));
      }
    }
  }

  /** Words found earlier do not influence the scan. */
  lemma {:induction false} ScanAfter(s: string, st: Scanner, earlier: seq<string>)
    ensures Scan(s, st.After(earlier)) == Scan(s, st).After(earlier)
    decreases |s|
  {
    if s != "" {
      if st.inQuote != NO_QUOTE {
        ScanAfter(s[1..], st.(inQuote := NO_QUOTE), earlier);
        ScanAfter(s[1..], st.Append(s[0]), earlier);
        if |s| > 1 {
          ScanAfter(s[2..], st.Append(s[1]), earlier);
        }
      } else if IsQuote(s[0]) {
        ScanAfter(s[1..], st.Open(s[0]), earlier);
      } else if IsSpace(s[0]) {
        FlushAfter(st, earlier);
        ScanAfter(s[1..], st.Flush(), earlier);
      } else {
        ScanAfter(s[1..], st.Append(s[0]), earlier);
      }
    }
  }

  lemma FlushAfter(st: Scanner, earlier: seq<string>)
    ensures st.After(earlier).Flush() == st.Flush().After(earlier)
  {
    assert earlier + st.parts + [st.current] == earlier + (st.parts + [st.current]);
  }

  /** The words of `b` follow those of `a`, whatever parsing `b` alone gives. */
  lemma ParseConcatenates(a: string, space: char, b: string)
    requires IsSpace(space)
    requires Parse(a).Ok?
    ensures Parse(a + [space] + b) ==
            match Parse(b)
            case Ok(words) => Ok(Parse(a).value + words)
            case Err(CommandRequired) => Parse(a)
            case Err(UnterminatedQuote) => Err(UnterminatedQuote)
  {
    var st := Scan(a, START);
    var words := st.Flush().parts;
    ScanKeepsValid(a, START);
    ScanKeepsValid(b, START);
    ScanPasses(a, space, b, START);
    assert ([space] + b)[1..] == b;
    assert st.Flush() == START.After(words);
    ScanAfter(b, START, words);
    FlushAfter(Scan(b, START), words);
  }

  lemma {:induction false} BlankScans(s: string, st: Scanner)
    requires st.Valid()
    ensures Scan(s, st) == START <==> st == START && forall i | 0 <= i < |s| :: IsSpace(s[i])
    decreases |s|
  {
    if s != "" {
      if st.inQuote != NO_QUOTE {
        BlankScans(s[1..], st.(inQuote := NO_QUOTE));
        BlankScans(s[1..], st.Append(s[0]));
        if |s| > 1 {
          BlankScans(s[2..], st.Append(s[1]));
        }
      } else {
        var next := if IsQuote(s[0]) then st.Open(s[0]) else if IsSpace(s[0]) then st.Flush() else st.Append(s[0]);
        BlankScans(s[1..], next);
        assert forall i | 0 < i < |s| :: s[i] == s[1..][i - 1];
      }
    }
  }

  /** "command is required" is reported for blank input and for nothing else. */
  lemma OnlyBlankInputIsEmpty(raw: string)
    ensures Parse(raw) == Err(CommandRequired) <==> forall i | 0 <= i < |raw| :: IsSpace(raw[i])
  {
    ScanKeepsValid(raw, START);
    BlankScans(raw, START);
  }

  // ----- Writing an argument list down

  /** `text` inside double quotes: backslashes doubled, each double quote as "'"'". */
  function Body(text: string): string {
    if text == "" then ""
    else (if text[0] == '"' then "\"'\"'\"" else if text[0] == '\\' then "\\\\" else [text[0]]) + Body(text[1..])
  }

  function Quoted(arg: string): string {
    "\"" + Body(arg) + "\""
  }

  function Render(args: seq<string>): string
    requires args != []
  {
    if |args| == 1 then Quoted(args[0]) else Quoted(args[0]) + " " + Render(args[1..])
  }

  /** Closing the double quote, one double quote inside single quotes, and opening it again. */
  lemma ScanQuoteMark(rest: string, st: Scanner)
    requires st.Valid() && st.inQuote == '"'
    ensures Scan("\"'\"'\"" + rest, st) == Scan(rest, st.Append('"'))
  {
    var s0 := "\"'\"'\"" + rest;
    var s1, s2, s3, s4 := s0[1..], s0[2..], s0[3..], s0[4..];
    assert s1[1..] == s2 && s2[1..] == s3 && s3[1..] == s4 && s4[1..] == rest;
    var closed := st.(inQuote := NO_QUOTE);
    assert Scan(s0, st) == Scan(s1, closed);
    assert Scan(s1, closed) == Scan(s2, closed.Open('\''));
    assert Scan(s2, closed.Open('\'')) == Scan(s3, closed.Open('\'').Append('"'));
    assert Scan(s3, closed.Open('\'').Append('"')) == Scan(s4, closed.Append('"'));
    assert Scan(s4, closed.Append('"')) == Scan(rest, st.Append('"'));
  }

  lemma ScanBackslash(rest: string, st: Scanner)
    requires st.Valid() && st.inQuote == '"'
    ensures Scan("\\\\" + rest, st) == Scan(rest, st.Append('\\'))
  {
    assert ("\\\\" + rest)[2..] == rest;
  }

  lemma ScanPlain(c: char, rest: string, st: Scanner)
    requires st.Valid() && st.inQuote == '"' && c != '"' && c != '\\'
    ensures Scan([c] + rest, st) == Scan(rest, st.Append(c))
  {
    assert ([c] + rest)[1..] == rest;
  }

  lemma {:induction false} ScanBody(text: string, rest: string, st: Scanner)
    requires st.Valid() && st.inQuote == '"'
    ensures Scan(Body(text) + rest, st) == Scan(rest, st.(current := st.current + text))
    decreases |text|
  {
    if text == "" {
      assert Body(text) + rest == rest;
      assert st.current + text == st.current;
    } else {
      var tail := Body(text[1..]) + rest;
      var next := st.Append(text[0]);
      assert st.current + text == next.current + text[1..];
      if text[0] == '"' {
        assert Body(text) + rest == "\"'\"'\"" + tail;
        ScanQuoteMark(tail, st);
      } else if text[0] == '\\' {
        assert Body(text) + rest == "\\\\" + tail;
        ScanBackslash(tail, st);
      } else {
        assert Body(text) + rest == [text[0]] + tail;
        ScanPlain(text[0], tail, st);
      }
      ScanBody(text[1..], rest, next);
    }
  }

  lemma QuotedParses(arg: string)
    ensures Parse(Quoted(arg)) == Ok([arg])
  {
    var open := START.Open('"');
    assert Quoted(arg)[1..] == Body(arg) + "\"";
    ScanBody(arg, "\"", open);
    assert open.current + arg == arg;
    assert "\""[1..] == "";
    var closing := open.(current := arg);
    assert Scan("\"", closing) == Scan("", closing.(inQuote := NO_QUOTE));
    assert Scan(Quoted(arg), START) == Scan(Body(arg) + "\"", open);
    assert open.(current := open.current + arg) == closing;
    assert START.parts + [arg] == [arg];
  }

  /** Any non-empty list of arguments, of any characters, has a rendering that parses back to it. */
  lemma {:induction false} RenderedArgumentsParse(args: seq<string>)
    requires args != []
    ensures Parse(Render(args)) == Ok(args)
  {
    QuotedParses(args[0]);
    if |args| > 1 {
      RenderedArgumentsParse(args[1..]);
      ParseConcatenates(Quoted(args[0]), ' ', Render(args[1..]));
      assert [args[0]] + args[1..] == args;
    } else {
      assert args == [args[0]];
    }
  }
}
