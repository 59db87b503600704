/**
 What command lines mean: words of plain and quoted pieces between spaces
 (services/runner/internal/engine/commands.go, parseCommand).

 The grammar here does not mention the scanner. `LineParses` says that every line of the grammar
 parses to the words it spells, and `UnquotedLine` that every line without quote marks is one.
 */
module CommandWords {
  import opened Common
  import opened CommandParser

  // ----- The grammar

  /** Inside quotes: a character as it is, a doubled backslash, or the quote mark behind a backslash. */
  datatype Item = Literal(c: char) | Backslash | EscapedMark

  datatype Piece = Plain(text: string) | Quoted(mark: char, items: seq<Item>)

  /** A word, and the space behind it. */
  datatype Spaced = Spaced(word: seq<Piece>, gap: string)

  function ItemText(item: Item, mark: char): string {
    match item
    case Literal(c) => [c]
    case Backslash => ['\\', '\\']
    case EscapedMark => ['\\', mark]
  }

  function ItemValue(item: Item, mark: char): char {
    match item
    case Literal(c) => c
    case Backslash => '\\'
    case EscapedMark => mark
  }

  function ItemsText(items: seq<Item>, mark: char): string {
    if items == [] then "" else ItemText(items[0], mark) + ItemsText(items[1..], mark)
  }

  function ItemsValue(items: seq<Item>, mark: char): string {
    if items == [] then "" else [ItemValue(items[0], mark)] + ItemsValue(items[1..], mark)
  }

  /** The first character of the items, or else of what follows them. */
  function FirstOf(items: seq<Item>, mark: char, next: char): char {
    if items == [] then next else ItemText(items[0], mark)[0]
  }

  /**
   A quote mark is always escaped, and not in front of a space, where it would end the word. A
   single backslash does not stand in front of a backslash or a quote mark.
   */
  predicate ItemOk(item: Item, mark: char, next: char) {
    match item
    case Literal(c) => c != mark && (c == '\\' ==> next != '\\' && next != mark)
    case Backslash => true
    case EscapedMark => !IsSpace(next)
  }

  predicate ItemsOk(items: seq<Item>, mark: char, next: char) {
    items == [] || (ItemOk(items[0], mark, FirstOf(items[1..], mark, next)) && ItemsOk(items[1..], mark, next))
  }

  predicate IsPlain(text: string) {
    forall i | 0 <= i < |text| :: !IsQuote(text[i]) && !IsSpace(text[i])
  }

  predicate IsBlank(text: string) {
    forall i | 0 <= i < |text| :: IsSpace(text[i])
  }

  function PieceText(piece: Piece): string {
    match piece
    case Plain(text) => text
    case Quoted(mark, items) => [mark] + (ItemsText(items, mark) + [mark])
  }

  function PieceValue(piece: Piece): string {
    match piece
    case Plain(text) => text
    case Quoted(mark, items) => ItemsValue(items, mark)
  }

  predicate PieceOk(piece: Piece) {
    match piece
    case Plain(text) => text != "" && IsPlain(text)
    case Quoted(mark, items) => IsQuote(mark) && ItemsOk(items, mark, mark)
  }

  function WordText(word: seq<Piece>): string {
    if word == [] then "" else PieceText(word[0]) + WordText(word[1..])
  }

  function WordValue(word: seq<Piece>): string {
    if word == [] then "" else PieceValue(word[0]) + WordValue(word[1..])
  }

  predicate WordOk(word: seq<Piece>) {
    word != [] && forall i | 0 <= i < |word| :: PieceOk(word[i])
  }

  function LineText(line: seq<Spaced>): string {
    if line == [] then "" else WordText(line[0].word) + (line[0].gap + LineText(line[1..]))
  }

  function LineWords(line: seq<Spaced>): seq<string> {
    if line == [] then [] else [WordValue(line[0].word)] + LineWords(line[1..])
  }

  /** Only behind the last word there may be no space. */
  predicate LineOk(line: seq<Spaced>) {
    forall i | 0 <= i < |line| ::
      WordOk(line[i].word) && IsBlank(line[i].gap) && (i < |line| - 1 ==> line[i].gap != "")
  }

  // ----- Scanning pieces

  predicate InQuote(st: Scanner, mark: char) {
    st.Valid() && IsQuote(mark) && st.inQuote == mark
  }

  lemma ScanItem(item: Item, mark: char, rest: string, st: Scanner)
    requires InQuote(st, mark) && rest != "" && ItemOk(item, mark, rest[0])
    ensures Scan(ItemText(item, mark) + rest, st) == Scan(rest, st.Append(ItemValue(item, mark)))
  {
    var s := ItemText(item, mark) + rest;
    match item
    case Literal(_) =>
      assert s[1..] == rest;
      assert s[1] == rest[0];
    case Backslash => assert s[2..] == rest;
    case EscapedMark =>
      assert s[2..] == rest;
      assert s[2] == rest[0];
  }

  lemma ItemsHead(items: seq<Item>, mark: char, rest: string)
    requires items != []
    ensures ItemsText(items, mark) + rest == ItemText(items[0], mark) + (ItemsText(items[1..], mark) + rest)
  {
  }

  lemma FirstChar(items: seq<Item>, mark: char, rest: string)
    requires rest != ""
    ensures ItemsText(items, mark) + rest != ""
    ensures (ItemsText(items, mark) + rest)[0] == FirstOf(items, mark, rest[0])
  {
  }

  lemma Grown(current: string, c: char, more: string)
    ensures current + [c] + more == current + ([c] + more)
  {
  }

  lemma {:induction false} ScanItems(items: seq<Item>, mark: char, rest: string, st: Scanner)
    requires InQuote(st, mark) && rest != "" && ItemsOk(items, mark, rest[0])
    ensures Scan(ItemsText(items, mark) + rest, st) == Scan(rest, st.(current := st.current + ItemsValue(items, mark)))
    decreases |items|
  {
    if items == [] {
      assert ItemsText(items, mark) + rest == rest && st.current + "" == st.current;
    } else {
      var more := ItemsText(items[1..], mark) + rest;
      FirstChar(items[1..], mark, rest);
      ItemsHead(items, mark, rest);
      ScanItem(items[0], mark, more, st);
      ScanItems(items[1..], mark, rest, st.Append(ItemValue(items[0], mark)));
      Grown(st.current, ItemValue(items[0], mark), ItemsValue(items[1..], mark));
    }
  }

  /** The scanner with a word begun, or carried on, by `value`. */
  function Extended(st: Scanner, value: string): Scanner {
    st.(current := st.current + value, sawToken := true, tokenStarted := true)
  }

  predicate OutOfQuote(st: Scanner) {
    st.Valid() && st.inQuote == NO_QUOTE
  }

  lemma ScanQuoted(mark: char, items: seq<Item>, rest: string, st: Scanner)
    requires OutOfQuote(st) && IsQuote(mark) && ItemsOk(items, mark, mark)
    ensures Scan([mark] + (ItemsText(items, mark) + ([mark] + rest)), st) == Scan(rest, Extended(st, ItemsValue(items, mark)))
  {
    var inside := ItemsText(items, mark) + ([mark] + rest);
    assert ([mark] + inside)[1..] == inside;
    ScanItems(items, mark, [mark] + rest, st.Open(mark));
    CloseQuote(mark, rest, Extended(st, ItemsValue(items, mark)).(inQuote := mark));
  }

  lemma CloseQuote(mark: char, rest: string, st: Scanner)
    requires InQuote(st, mark)
    ensures Scan([mark] + rest, st) == Scan(rest, st.(inQuote := NO_QUOTE))
  {
    assert ([mark] + rest)[1..] == rest;
  }

  lemma ScanPlainChar(c: char, rest: string, st: Scanner)
    requires OutOfQuote(st) && !IsQuote(c) && !IsSpace(c)
    ensures Scan([c] + rest, st) == Scan(rest, st.Append(c))
  {
    assert ([c] + rest)[1..] == rest;
  }

  lemma PlainHead(text: string, rest: string)
    requires text != ""
    ensures text + rest == [text[0]] + (text[1..] + rest)
  {
  }

  lemma {:induction false} ScanPlainText(text: string, rest: string, st: Scanner)
    requires OutOfQuote(st) && text != "" && IsPlain(text)
    ensures Scan(text + rest, st) == Scan(rest, Extended(st, text))
    decreases |text|
  {
    PlainHead(text, rest);
    ScanPlainChar(text[0], text[1..] + rest, st);
    if |text| == 1 {
      assert text[1..] + rest == rest && [text[0]] == text;
    } else {
      ScanPlainText(text[1..], rest, st.Append(text[0]));
      PlainHead(text, "");
      Grown(st.current, text[0], text[1..]);
      assert [text[0]] + text[1..] == text;
    }
  }

  lemma QuotedText(mark: char, inside: string, rest: string)
    ensures [mark] + (inside + [mark]) + rest == [mark] + (inside + ([mark] + rest))
  {
  }

  lemma ScanPiece(piece: Piece, rest: string, st: Scanner)
    requires OutOfQuote(st) && PieceOk(piece)
    ensures Scan(PieceText(piece) + rest, st) == Scan(rest, Extended(st, PieceValue(piece)))
  {
    match piece
    case Plain(text) => ScanPlainText(text, rest, st);
    case Quoted(mark, items) =>
      QuotedText(mark, ItemsText(items, mark), rest);
      ScanQuoted(mark, items, rest, st);
  }

  lemma Associated(a: string, b: string, c: string)
    ensures (a + b) + c == a + (b + c)
  {
  }

  lemma {:induction false} ScanWord(word: seq<Piece>, rest: string, st: Scanner)
    requires OutOfQuote(st) && WordOk(word)
    ensures Scan(WordText(word) + rest, st) == Scan(rest, Extended(st, WordValue(word)))
    decreases |word|
  {
    var more := WordText(word[1..]) + rest;
    Associated(PieceText(word[0]), WordText(word[1..]), rest);
    ScanPiece(word[0], more, st);
    if |word| == 1 {
      assert more == rest && PieceValue(word[0]) + "" == PieceValue(word[0]);
    } else {
      ScanWord(word[1..], rest, Extended(st, PieceValue(word[0])));
      Associated(st.current, PieceValue(word[0]), WordValue(word[1..]));
    }
  }

  // ----- Scanning lines

  lemma ScanSpace(c: char, rest: string, st: Scanner)
    requires OutOfQuote(st) && IsSpace(c)
    ensures Scan([c] + rest, st) == Scan(rest, st.Flush())
  {
    assert ([c] + rest)[1..] == rest;
  }

  lemma {:induction false} ScanBlank(gap: string, rest: string, st: Scanner)
    requires OutOfQuote(st) && IsBlank(gap)
    ensures Scan(gap + rest, st) == Scan(rest, if gap == "" then st else st.Flush())
    decreases |gap|
  {
    if gap == "" {
      assert gap + rest == rest;
    } else {
      PlainHead(gap, rest);
      ScanSpace(gap[0], gap[1..] + rest, st);
      ScanBlank(gap[1..], rest, st.Flush());
    }
  }

  /** The scanner between words, with the words found so far. */
  function Between(words: seq<string>): Scanner {
    Scanner(words, "", NO_QUOTE, words != [], false)
  }

  lemma WordIsFlushed(words: seq<string>, value: string)
    ensures Extended(Between(words), value).Flush() == Between(words + [value])
    ensures OutOfQuote(Between(words)) && OutOfQuote(Extended(Between(words), value))
  {
    assert "" + value == value;
  }

  lemma ScanSpaced(first: Spaced, rest: string, words: seq<string>)
    requires WordOk(first.word) && IsBlank(first.gap)
    ensures Scan(WordText(first.word) + (first.gap + rest), Between(words)) ==
            Scan(rest, if first.gap == "" then Extended(Between(words), WordValue(first.word)) else Between(words + [WordValue(first.word)]))
  {
    var value := WordValue(first.word);
    WordIsFlushed(words, value);
    ScanWord(first.word, first.gap + rest, Between(words));
    ScanBlank(first.gap, rest, Extended(Between(words), value));
  }

  lemma WordsGrow(words: seq<string>, line: seq<Spaced>)
    requires line != []
    ensures words + [WordValue(line[0].word)] + LineWords(line[1..]) == words + LineWords(line)
  {
  }

  lemma LaterLineOk(line: seq<Spaced>)
    requires LineOk(line) && line != []
    ensures LineOk(line[1..]) && WordOk(line[0].word) && IsBlank(line[0].gap)
    ensures line[0].gap == "" ==> line[1..] == []
  {
    assert forall i | 0 <= i < |line[1..]| :: line[1..][i] == line[i + 1];
  }

  /** The line has been scanned, and its words found. */
  predicate Found(st: Scanner, words: seq<string>) {
    st.Flush() == Between(words) && st.inQuote == NO_QUOTE
  }

  lemma {:induction false} ScanLine(line: seq<Spaced>, words: seq<string>)
    requires LineOk(line)
    ensures Found(Scan(LineText(line), Between(words)), words + LineWords(line))
    decreases |line|
  {
    if line == [] {
      assert words + [] == words;
    } else {
      LaterLineOk(line);
      ScanSpaced(line[0], LineText(line[1..]), words);
      WordsGrow(words, line);
      if line[0].gap == "" {
        WordIsFlushed(words, WordValue(line[0].word));
        LastWord(line, words);
      } else {
        ScanLine(line[1..], words + [WordValue(line[0].word)]);
      }
    }
  }

  lemma LastWord(line: seq<Spaced>, words: seq<string>)
    requires line != [] && line[1..] == []
    ensures words + LineWords(line) == words + [WordValue(line[0].word)] && LineText(line[1..]) == ""
  {
    assert LineWords(line) == [WordValue(line[0].word)] + [];
  }

  /** A line parses to exactly the words it spells; with none, a command is required. */
  lemma LineParses(lead: string, line: seq<Spaced>)
    requires IsBlank(lead) && LineOk(line)
    ensures Parse(lead + LineText(line)) == if line == [] then Err(CommandRequired) else Ok(LineWords(line))
  {
    ScanBlank(lead, LineText(line), START);
    assert START == Between([]);
    ScanLine(line, []);
    assert [] + LineWords(line) == LineWords(line);
  }

  // ----- Single words

  /** A word of plain characters is itself. */
  lemma PlainWordParses(text: string)
    requires text != "" && IsPlain(text)
    ensures Parse(text) == Ok([text])
  {
    WordParses([Plain(text)]);
    assert WordText([Plain(text)]) == text + "" == text && WordValue([Plain(text)]) == text + "" == text;
  }

  lemma OneWord(word: seq<Piece>)
    ensures LineText([Spaced(word, "")]) == WordText(word) && LineWords([Spaced(word, "")]) == [WordValue(word)]
  {
    var line := [Spaced(word, "")];
    assert line[1..] == [];
    assert LineText(line) == WordText(word) + ("" + "");
  }

  lemma NoLead(text: string)
    ensures "" + text == text
  {
  }

  /** Any sequence of plain and quoted pieces is one word. */
  lemma WordParses(word: seq<Piece>)
    requires WordOk(word)
    ensures Parse(WordText(word)) == Ok([WordValue(word)])
  {
    OneWord(word);
    NoLead(WordText(word));
    LineParses("", [Spaced(word, "")]);
  }

  /** A backslash in front of the quote mark that ends the word stays as it is, as in a quoted Windows path. */
  lemma QuotedPathParses(mark: char, items: seq<Item>)
    requires IsQuote(mark) && ItemsOk(items, mark, '\\')
    ensures Parse([mark] + (ItemsText(items, mark) + ['\\', mark])) == Ok([ItemsValue(items, mark) + ['\\']])
  {
    var value := ItemsValue(items, mark);
    ScanPath(mark, items);
    assert [] + [value + ['\\']] == [value + ['\\']];
  }

  lemma ScanPath(mark: char, items: seq<Item>)
    requires IsQuote(mark) && ItemsOk(items, mark, '\\')
    ensures Scan([mark] + (ItemsText(items, mark) + ['\\', mark]), START) ==
            Scanner([], ItemsValue(items, mark) + ['\\'], NO_QUOTE, true, true)
  {
    var inside, open := ItemsText(items, mark) + ['\\', mark], START.Open(mark);
    assert ([mark] + inside)[1..] == inside;
    ScanItems(items, mark, ['\\', mark], open);
    NoLead(ItemsValue(items, mark));
    LastBackslash(mark, open.(current := ItemsValue(items, mark)));
  }

  lemma LastBackslash(mark: char, st: Scanner)
    requires InQuote(st, mark)
    ensures Scan(['\\', mark], st) == st.Append('\\').(inQuote := NO_QUOTE)
  {
    assert ['\\', mark][1..] == [mark];
    CloseQuote(mark, "", st.Append('\\'));
    assert [mark] + "" == [mark];
  }

  lemma {:induction false} ScanUnclosed(text: string, st: Scanner)
    requires st.Valid() && st.inQuote != NO_QUOTE
    requires forall i | 0 <= i < |text| :: text[i] != st.inQuote && text[i] != '\\'
    ensures Scan(text, st).inQuote == st.inQuote
    decreases |text|
  {
    if text != "" {
      ScanUnclosed(text[1..], st.Append(text[0]));
    }
  }

  /** A quote that is never closed is an error; `ParseConcatenates` says that it is one behind other words too. */
  lemma UnclosedQuoteIsAnError(mark: char, text: string)
    requires IsQuote(mark) && forall i | 0 <= i < |text| :: text[i] != mark && text[i] != '\\'
    ensures Parse([mark] + text) == Err(UnterminatedQuote)
  {
    assert ([mark] + text)[1..] == text;
    ScanUnclosed(text, START.Open(mark));
  }

  // ----- Every line without quote marks

  predicate HasNoQuotes(s: string) {
    forall i | 0 <= i < |s| :: !IsQuote(s[i])
  }

  /** The line's words are plain. */
  predicate AllPlain(line: seq<Spaced>) {
    forall i | 0 <= i < |line| :: |line[i].word| == 1 && line[i].word[0].Plain?
  }

  /** How many characters at the front are spaces, or are not. */
  function Stretch(s: string, spaces: bool): (n: nat)
    ensures n <= |s|
    ensures forall i | 0 <= i < n :: IsSpace(s[i]) == spaces
    ensures n < |s| ==> IsSpace(s[n]) != spaces
  {
    if s == "" || IsSpace(s[0]) != spaces then 0 else 1 + Stretch(s[1..], spaces)
  }

  lemma FirstStretches(s: string, n: nat, m: nat)
    requires n == Stretch(s, false) && m == Stretch(s[n..], true)
    ensures s == s[..n] + (s[n..][..m] + s[n..][m..])
    ensures forall i | 0 <= i < n :: !IsSpace(s[..n][i])
    ensures IsBlank(s[n..][..m])
    ensures s[n..][m..] != "" ==> m > 0 && !IsSpace(s[n..][m..][0])
  {
  }

  lemma PlainText(text: string)
    ensures WordText([Plain(text)]) == text && WordValue([Plain(text)]) == text
  {
    assert [Plain(text)][1..] == [];
  }

  /** A plain word in front of a line of plain words. */
  lemma OneMorePlain(text: string, gap: string, others: seq<Spaced>)
    requires text != "" && IsPlain(text) && IsBlank(gap) && LineOk(others) && AllPlain(others)
    requires others != [] ==> gap != ""
    ensures var line := [Spaced([Plain(text)], gap)] + others;
            LineOk(line) && AllPlain(line) && LineText(line) == text + (gap + LineText(others))
  {
    var line := [Spaced([Plain(text)], gap)] + others;
    PlainText(text);
    assert line[1..] == others;
    assert forall i | 0 < i < |line| :: line[i] == others[i - 1];
  }

  lemma {:induction false} UnquotedWords(s: string) returns (line: seq<Spaced>)
    requires HasNoQuotes(s) && (s != "" ==> !IsSpace(s[0]))
    ensures LineOk(line) && AllPlain(line) && s == LineText(line)
    ensures line == [] <==> s == ""
    decreases |s|
  {
    if s == "" {
      line := [];
    } else {
      var n := Stretch(s, false);
      var m := Stretch(s[n..], true);
      FirstStretches(s, n, m);
      var others := UnquotedWords(s[n..][m..]);
      OneMorePlain(s[..n], s[n..][..m], others);
      line := [Spaced([Plain(s[..n])], s[n..][..m])] + others;
    }
  }

  /** A line without quote marks is plain words between spaces, and parses to them: its maximal stretches without spaces. */
  lemma UnquotedLine(s: string) returns (lead: string, line: seq<Spaced>)
    requires HasNoQuotes(s)
    ensures IsBlank(lead) && LineOk(line) && AllPlain(line) && s == lead + LineText(line)
    ensures Parse(s) == if line == [] then Err(CommandRequired) else Ok(LineWords(line))
  {
    var n := Stretch(s, true);
    lead := s[..n];
    line := UnquotedWords(s[n..]);
    assert s == lead + s[n..];
    LineParses(lead, line);
  }
}
