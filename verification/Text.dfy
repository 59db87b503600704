/**
 The parts of the Go and JavaScript string libraries that the command pipeline relies on.
 Strings are byte strings in UTF-8: one char per byte.
 */
module Text {
  import opened Common

  predicate HasPrefix(s: string, prefix: string) {
    prefix <= s
  }

  function TrimSuffixChar(s: string, c: char): string {
    if s != "" && s[|s| - 1] == c then s[..|s| - 1] else s
  }

  // ----- Whitespace (strings.TrimSpace and String.prototype.trim)

  /** The code points both languages trim, in UTF-8; the whitespace of the Unicode standard. */
  predicate IsCommonSpace(u: string) {
    || (|u| == 1 && ('\t' <= u[0] <= '\r' || u[0] == ' '))
    || (|u| == 2 && u[0] as int == 0xC2 && u[1] as int == 0xA0)
    || (|u| == 3 && u[0] as int == 0xE1 && u[1] as int == 0x9A && u[2] as int == 0x80)
    || (|u| == 3 && u[0] as int == 0xE2 && u[1] as int == 0x80 &&
        (0x80 <= u[2] as int <= 0x8A || u[2] as int in {0xA8, 0xA9, 0xAF}))
    || (|u| == 3 && u[0] as int == 0xE2 && u[1] as int == 0x81 && u[2] as int == 0x9F)
    || (|u| == 3 && u[0] as int == 0xE3 && u[1] as int == 0x80 && u[2] as int == 0x80)
  }

  /** U+0085, which only Go trims. */
  predicate IsNextLine(u: string) {
    |u| == 2 && u[0] as int == 0xC2 && u[1] as int == 0x85
  }

  /** U+FEFF, which only JavaScript trims. */
  predicate IsByteOrderMark(u: string) {
    |u| == 3 && u[0] as int == 0xEF && u[1] as int == 0xBB && u[2] as int == 0xBF
  }

  datatype Trimmer = Go | JavaScript
  {
    predicate IsSpace(u: string) {
      IsCommonSpace(u) || (if Go? then IsNextLine(u) else IsByteOrderMark(u))
    }

    predicate StartsWithSpace(s: string, n: nat) {
      |s| >= n && IsSpace(s[..n])
    }

    predicate EndsWithSpace(s: string, n: nat) {
      |s| >= n && IsSpace(s[|s| - n..])
    }

    /** The length in bytes of the space that `s` starts with, or 0. */
    function Leading(s: string): (n: nat)
      ensures n <= |s|
    {
      if StartsWithSpace(s, 1) then 1
      else if StartsWithSpace(s, 2) then 2
      else if StartsWithSpace(s, 3) then 3
      else 0
    }

    /** The length in bytes of the space that `s` ends with, or 0. */
    function Trailing(s: string): (n: nat)
      ensures n <= |s|
    {
      if EndsWithSpace(s, 1) then 1
      else if EndsWithSpace(s, 2) then 2
      else if EndsWithSpace(s, 3) then 3
      else 0
    }

    function TrimLeft(s: string): string
      decreases |s|
    {
      if Leading(s) == 0 then s else TrimLeft(s[Leading(s)..])
    }

    function TrimRight(s: string): string
      decreases |s|
    {
      if Trailing(s) == 0 then s else TrimRight(s[..|s| - Trailing(s)])
    }

    function Trim(s: string): string {
      TrimRight(TrimLeft(s))
    }

    predicate IsTrimmed(s: string) {
      Leading(s) == 0 && Trailing(s) == 0
    }
  }

  lemma {:induction false} TrimLeftTrims(t: Trimmer, s: string)
    ensures t.Leading(t.TrimLeft(s)) == 0
    decreases |s|
  {
    if t.Leading(s) != 0 {
      TrimLeftTrims(t, s[t.Leading(s)..]);
    }
  }

  lemma {:induction false} TrimRightTrims(t: Trimmer, s: string)
    requires t.Leading(s) == 0
    ensures t.IsTrimmed(t.TrimRight(s))
    decreases |s|
  {
    if t.Trailing(s) != 0 {
      var shorter := s[..|s| - t.Trailing(s)];
      forall n: nat | n <= |shorter| && t.StartsWithSpace(shorter, n)
        ensures t.StartsWithSpace(s, n)
      {
        assert shorter[..n] == s[..n];
      }
      TrimRightTrims(t, shorter);
    }
  }

  lemma TrimTrims(t: Trimmer, s: string)
    ensures t.IsTrimmed(t.Trim(s))
  {
    TrimLeftTrims(t, s);
    TrimRightTrims(t, t.TrimLeft(s));
  }

  lemma {:induction false} TrimShortens(t: Trimmer, s: string)
    ensures |t.TrimLeft(s)| <= |s| && (|t.TrimLeft(s)| == |s| ==> t.Leading(s) == 0)
    ensures |t.TrimRight(s)| <= |s| && (|t.TrimRight(s)| == |s| ==> t.Trailing(s) == 0)
    decreases |s|
  {
    if t.Leading(s) != 0 {
      TrimShortens(t, s[t.Leading(s)..]);
    }
    if t.Trailing(s) != 0 {
      TrimShortens(t, s[..|s| - t.Trailing(s)]);
    }
  }

  /** Trimming leaves exactly the trimmed strings alone. */
  lemma TrimIsIdentity(t: Trimmer, s: string)
    ensures t.Trim(s) == s <==> t.IsTrimmed(s)
  {
    TrimShortens(t, s);
    TrimShortens(t, t.TrimLeft(s));
  }

  // ----- Trimming takes off spaces, and nothing else

  ghost predicate IsSpaces(t: Trimmer, pieces: seq<string>) {
    forall i | 0 <= i < |pieces| :: t.IsSpace(pieces[i])
  }

  /** Nothing but whole spaces. */
  ghost predicate AllSpace(t: Trimmer, s: string) {
    exists pieces :: IsSpaces(t, pieces) && Concat(pieces) == s
  }

  /** No space at either end, of any length. */
  ghost predicate NoSpaceAtTheEnds(t: Trimmer, s: string) {
    forall n: nat :: !t.StartsWithSpace(s, n) && !t.EndsWithSpace(s, n)
  }

  lemma SpacesAreShort(t: Trimmer, s: string, n: nat)
    requires t.StartsWithSpace(s, n) || t.EndsWithSpace(s, n)
    ensures n == 1 || n == 2 || n == 3
  {
  }

  lemma TrimmedHasNoSpace(t: Trimmer, s: string)
    requires t.IsTrimmed(s)
    ensures NoSpaceAtTheEnds(t, s)
  {
    forall n: nat
      ensures !t.StartsWithSpace(s, n) && !t.EndsWithSpace(s, n)
    {
      if t.StartsWithSpace(s, n) || t.EndsWithSpace(s, n) {
        SpacesAreShort(t, s, n);
      }
    }
  }

  lemma LeadingIsSpace(t: Trimmer, s: string)
    requires t.Leading(s) != 0
    ensures t.StartsWithSpace(s, t.Leading(s))
  {
  }

  lemma TrailingIsSpace(t: Trimmer, s: string)
    requires t.Trailing(s) != 0
    ensures t.EndsWithSpace(s, t.Trailing(s))
  {
  }

  lemma TrimmedIff(t: Trimmer, s: string)
    ensures t.IsTrimmed(s) <==> NoSpaceAtTheEnds(t, s)
  {
    if t.IsTrimmed(s) {
      TrimmedHasNoSpace(t, s);
    } else if t.Leading(s) != 0 {
      LeadingIsSpace(t, s);
    } else {
      TrailingIsSpace(t, s);
    }
  }

  predicate IsContinuationByte(c: char) {
    0x80 <= c as int < 0xC0
  }

  /** The first byte of a space says how long it is, and only the others are continuation bytes. */
  lemma SpaceShape(t: Trimmer, u: string)
    requires t.IsSpace(u)
    ensures u != "" && !IsContinuationByte(u[0])
    ensures |u| == if (u[0] as int) < 0x80 then 1 else if u[0] as int == 0xC2 then 2 else 3
    ensures forall k | 0 < k < |u| :: IsContinuationByte(u[k])
  {
  }

  lemma LeadingOfSpace(t: Trimmer, u: string, rest: string)
    requires t.IsSpace(u)
    ensures t.Leading(u + rest) == |u| && (u + rest)[|u|..] == rest
  {
    var s := u + rest;
    SpaceShape(t, u);
    assert s[..|u|] == u;
    forall n: nat | 0 < n < |u|
      ensures !t.StartsWithSpace(s, n)
    {
      assert s[..n] == u[..n];
      if t.IsSpace(u[..n]) {
        SpaceShape(t, u[..n]);
      }
    }
  }

  lemma TrailingOfSpace(t: Trimmer, before: string, u: string)
    requires t.IsSpace(u)
    ensures t.Trailing(before + u) == |u| && (before + u)[..|before|] == before
  {
    var s := before + u;
    SpaceShape(t, u);
    assert s[|s| - |u|..] == u;
    forall n: nat | 0 < n < |u|
      ensures !t.EndsWithSpace(s, n)
    {
      assert s[|s| - n..] == u[|u| - n..];
      if t.IsSpace(u[|u| - n..]) {
        SpaceShape(t, u[|u| - n..]);
      }
    }
  }

  lemma TakeFirst(s: string, n: nat, spaces: string, rest: string)
    requires n <= |s| && s[n..] == spaces + rest
    ensures s == (s[..n] + spaces) + rest
  {
    assert s == s[..n] + s[n..];
  }

  lemma TakeLast(s: string, n: nat, spaces: string, rest: string)
    requires n <= |s| && s[..|s| - n] == rest + spaces
    ensures s == rest + (spaces + s[|s| - n..])
  {
    assert s == s[..|s| - n] + s[|s| - n..];
  }

  lemma {:induction false} TrimLeftTakesSpaces(t: Trimmer, s: string) returns (pieces: seq<string>)
    ensures IsSpaces(t, pieces) && s == Concat(pieces) + t.TrimLeft(s)
    decreases |s|
  {
    var n := t.Leading(s);
    if n == 0 {
      pieces := [];
    } else {
      var rest := TrimLeftTakesSpaces(t, s[n..]);
      LeadingIsSpace(t, s);
      ConcatFirst(s[..n], rest);
      TakeFirst(s, n, Concat(rest), t.TrimLeft(s[n..]));
      pieces := [s[..n]] + rest;
    }
  }

  lemma {:induction false} TrimRightTakesSpaces(t: Trimmer, s: string) returns (pieces: seq<string>)
    ensures IsSpaces(t, pieces) && s == t.TrimRight(s) + Concat(pieces)
    decreases |s|
  {
    var n := t.Trailing(s);
    if n == 0 {
      pieces := [];
    } else {
      var rest := TrimRightTakesSpaces(t, s[..|s| - n]);
      TrailingIsSpace(t, s);
      ConcatLast(rest, s[|s| - n..]);
      TakeLast(s, n, Concat(rest), t.TrimRight(s[..|s| - n]));
      pieces := rest + [s[|s| - n..]];
    }
  }

  lemma TrimLeftOfSpace(t: Trimmer, u: string, rest: string)
    requires t.IsSpace(u)
    ensures t.TrimLeft(u + rest) == t.TrimLeft(rest)
  {
    LeadingOfSpace(t, u, rest);
    SpaceShape(t, u);
  }

  lemma TrimRightOfSpace(t: Trimmer, before: string, u: string)
    requires t.IsSpace(u)
    ensures t.TrimRight(before + u) == t.TrimRight(before)
  {
    TrailingOfSpace(t, before, u);
    SpaceShape(t, u);
  }

  lemma Reassociated(a: string, b: string, c: string)
    ensures (a + b) + c == a + (b + c)
  {
  }

  lemma FirstAndOthers(pieces: seq<string>)
    requires pieces != []
    ensures pieces == [pieces[0]] + pieces[1..] && pieces == pieces[..|pieces| - 1] + [pieces[|pieces| - 1]]
  {
  }

  lemma {:induction false} TrimLeftOfSpaces(t: Trimmer, pieces: seq<string>, rest: string)
    requires IsSpaces(t, pieces)
    ensures t.TrimLeft(Concat(pieces) + rest) == t.TrimLeft(rest)
  {
    if pieces == [] {
      assert Concat(pieces) + rest == rest;
    } else {
      TrimLeftOfSpaces(t, pieces[1..], rest);
      TrimLeftOfSpace(t, pieces[0], Concat(pieces[1..]) + rest);
      Reassociated(pieces[0], Concat(pieces[1..]), rest);
    }
  }

  lemma {:induction false} TrimRightOfSpaces(t: Trimmer, before: string, pieces: seq<string>)
    requires IsSpaces(t, pieces)
    ensures t.TrimRight(before + Concat(pieces)) == t.TrimRight(before)
    decreases |pieces|
  {
    if pieces == [] {
      assert before + Concat(pieces) == before;
    } else {
      var init, last := pieces[..|pieces| - 1], pieces[|pieces| - 1];
      TrimRightOfSpaces(t, before, init);
      TrimRightOfSpace(t, before + Concat(init), last);
      FirstAndOthers(pieces);
      ConcatLast(init, last);
      Reassociated(before, Concat(init), last);
    }
  }

  /** A trimmed text is not made to start with a space by spaces behind it. */
  lemma NoSpaceAcross(t: Trimmer, middle: string, pieces: seq<string>)
    requires t.IsTrimmed(middle) && middle != "" && IsSpaces(t, pieces)
    ensures t.Leading(middle + Concat(pieces)) == 0
  {
    SpacesBegin(t, pieces);
    NoSpaceOfLength(t, middle, Concat(pieces), 1);
    NoSpaceOfLength(t, middle, Concat(pieces), 2);
    NoSpaceOfLength(t, middle, Concat(pieces), 3);
  }

  lemma SpacesBegin(t: Trimmer, pieces: seq<string>)
    requires IsSpaces(t, pieces)
    ensures Concat(pieces) != "" ==> !IsContinuationByte(Concat(pieces)[0])
  {
    if pieces != [] {
      SpaceShape(t, pieces[0]);
    }
  }

  lemma NoSpaceOfLength(t: Trimmer, middle: string, more: string, n: nat)
    requires t.Leading(middle) == 0 && middle != "" && 1 <= n <= 3
    requires more != "" ==> !IsContinuationByte(more[0])
    ensures !t.StartsWithSpace(middle + more, n)
  {
    if n <= |middle| {
      SamePrefix(middle, more, n);
      assert !t.StartsWithSpace(middle, n);
    } else if n <= |middle + more| {
      NoLongerSpace(t, middle, more, n);
    }
  }

  lemma NoLongerSpace(t: Trimmer, middle: string, more: string, n: nat)
    requires middle != "" && |middle| < n <= |middle + more| && !IsContinuationByte(more[0])
    ensures !t.IsSpace((middle + more)[..n])
  {
    var u := (middle + more)[..n];
    assert u[|middle|] == more[0];
    if t.IsSpace(u) {
      SpaceShape(t, u);
    }
  }

  lemma SamePrefix(middle: string, more: string, n: nat)
    requires n <= |middle|
    ensures (middle + more)[..n] == middle[..n]
  {
  }

  /** `s` is `middle` with spaces before and after it. */
  ghost predicate IsBetweenSpaces(t: Trimmer, s: string, before: string, middle: string, after: string) {
    AllSpace(t, before) && AllSpace(t, after) && s == before + middle + after
  }

  lemma TrimLeftOfSpaced(t: Trimmer, first: seq<string>, middle: string, last: seq<string>)
    requires IsSpaces(t, first) && IsSpaces(t, last) && t.IsTrimmed(middle)
    ensures t.TrimLeft(Concat(first) + (middle + Concat(last))) == if middle == "" then "" else middle + Concat(last)
  {
    TrimLeftOfSpaces(t, first, middle + Concat(last));
    if middle == "" {
      TrimLeftOfSpaces(t, last, "");
      assert Concat(last) + "" == middle + Concat(last);
    } else {
      NoSpaceAcross(t, middle, last);
    }
  }

  lemma TrimOfPieces(t: Trimmer, first: seq<string>, middle: string, last: seq<string>)
    requires IsSpaces(t, first) && IsSpaces(t, last) && t.IsTrimmed(middle)
    ensures t.Trim(Concat(first) + (middle + Concat(last))) == middle
  {
    TrimLeftOfSpaced(t, first, middle, last);
    if middle != "" {
      TrimRightOfSpaces(t, middle, last);
    }
  }

  lemma TrimOfSpaced(t: Trimmer, before: string, middle: string, after: string)
    requires AllSpace(t, before) && AllSpace(t, after) && NoSpaceAtTheEnds(t, middle)
    ensures t.Trim(before + middle + after) == middle
  {
    var first: seq<string> :| IsSpaces(t, first) && Concat(first) == before;
    var last: seq<string> :| IsSpaces(t, last) && Concat(last) == after;
    TrimmedIff(t, middle);
    TrimOfPieces(t, first, middle, last);
    Reassociated(before, middle, after);
  }

  lemma TrimIsBetweenSpaces(t: Trimmer, s: string) returns (before: string, after: string)
    ensures IsBetweenSpaces(t, s, before, t.Trim(s), after)
  {
    var first := TrimLeftTakesSpaces(t, s);
    var last := TrimRightTakesSpaces(t, t.TrimLeft(s));
    before, after := Concat(first), Concat(last);
    Reassociated(before, t.Trim(s), after);
  }

  /** Trimming gives the text without a space at its ends that stands between spaces: there is one, and only one. */
  lemma TrimIsTheMiddle(t: Trimmer, s: string, middle: string)
    ensures t.Trim(s) == middle <==>
            NoSpaceAtTheEnds(t, middle) && exists before, after :: IsBetweenSpaces(t, s, before, middle, after)
  {
    TrimTrims(t, s);
    TrimmedIff(t, t.Trim(s));
    var b, a := TrimIsBetweenSpaces(t, s);
    if NoSpaceAtTheEnds(t, middle) && exists before, after :: IsBetweenSpaces(t, s, before, middle, after) {
      var before, after :| IsBetweenSpaces(t, s, before, middle, after);
      TrimOfSpaced(t, before, middle, after);
    }
  }

  lemma SpacesAreSpace(t: Trimmer, first: seq<string>, last: seq<string>, s: string)
    requires IsSpaces(t, first) && IsSpaces(t, last) && s == Concat(first) + Concat(last)
    ensures AllSpace(t, s)
  {
    ConcatAppends(first, last);
    assert IsSpaces(t, first + last);
  }

  lemma TrimmedAwayIsSpace(t: Trimmer, s: string)
    requires t.Trim(s) == ""
    ensures AllSpace(t, s)
  {
    var first := TrimLeftTakesSpaces(t, s);
    var last := TrimRightTakesSpaces(t, t.TrimLeft(s));
    assert "" + Concat(last) == Concat(last);
    SpacesAreSpace(t, first, last, s);
  }

  lemma SpaceIsTrimmedAway(t: Trimmer, s: string)
    requires AllSpace(t, s)
    ensures t.Trim(s) == ""
  {
    NothingIsSpace(t);
    assert s + "" + "" == s;
    TrimOfSpaced(t, s, "", "");
  }

  /** Trimming leaves nothing of a text exactly if it is nothing but spaces. */
  lemma TrimsToNothingIff(t: Trimmer, s: string)
    ensures t.Trim(s) == "" <==> AllSpace(t, s)
  {
    if AllSpace(t, s) {
      SpaceIsTrimmedAway(t, s);
    }
    if t.Trim(s) == "" {
      TrimmedAwayIsSpace(t, s);
    }
  }

  lemma NothingIsSpace(t: Trimmer)
    ensures AllSpace(t, "") && NoSpaceAtTheEnds(t, "")
  {
    assert IsSpaces(t, []) && Concat([]) == "";
  }

  predicate HasByteOrderMarkAtAnEnd(s: string) {
    |s| >= 3 && (IsByteOrderMark(s[..3]) || IsByteOrderMark(s[|s| - 3..]))
  }

  lemma OnlyTheByteOrderMarkIsLeft(u: string)
    requires !Go.IsSpace(u)
    ensures JavaScript.IsSpace(u) == IsByteOrderMark(u)
  {
  }

  lemma SpacesAgree(u: string)
    requires !Go.IsSpace(u) && |u| <= 3
    ensures |u| < 3 ==> !JavaScript.IsSpace(u)
    ensures |u| == 3 ==> (JavaScript.IsSpace(u) <==> IsByteOrderMark(u))
  {
    OnlyTheByteOrderMarkIsLeft(u);
  }

  lemma NoGoSpace(s: string, n: nat)
    requires 1 <= n <= 3 && n <= |s|
    ensures Go.Leading(s) == 0 ==> !Go.IsSpace(s[..n])
    ensures Go.Trailing(s) == 0 ==> !Go.IsSpace(s[|s| - n..])
  {
    assert Go.Leading(s) == 0 ==> !Go.StartsWithSpace(s, n);
    assert Go.Trailing(s) == 0 ==> !Go.EndsWithSpace(s, n);
  }

  lemma LeadingByteOrderMark(s: string)
    requires Go.Leading(s) == 0
    ensures JavaScript.Leading(s) == 0 <==> !(|s| >= 3 && IsByteOrderMark(s[..3]))
  {
    if |s| >= 1 { NoGoSpace(s, 1); SpacesAgree(s[..1]); }
    if |s| >= 2 { NoGoSpace(s, 2); SpacesAgree(s[..2]); }
    if |s| >= 3 { NoGoSpace(s, 3); SpacesAgree(s[..3]); }
  }

  lemma TrailingByteOrderMark(s: string)
    requires Go.Trailing(s) == 0
    ensures JavaScript.Trailing(s) == 0 <==> !(|s| >= 3 && IsByteOrderMark(s[|s| - 3..]))
  {
    if |s| >= 1 { NoGoSpace(s, 1); SpacesAgree(s[|s| - 1..]); }
    if |s| >= 2 { NoGoSpace(s, 2); SpacesAgree(s[|s| - 2..]); }
    if |s| >= 3 { NoGoSpace(s, 3); SpacesAgree(s[|s| - 3..]); }
  }

  /** What Go has trimmed, JavaScript changes exactly when a byte order mark is left at an end. */
  lemma TrimAgain(s: string)
    requires Go.IsTrimmed(s)
    ensures JavaScript.Trim(s) == s <==> !HasByteOrderMarkAtAnEnd(s)
  {
    TrimIsIdentity(JavaScript, s);
    LeadingByteOrderMark(s);
    TrailingByteOrderMark(s);
  }

  // ----- Decimal integers (strconv.Itoa and strconv.Atoi on a 64-bit platform)

  const MIN_INT := -0x8000_0000_0000_0000
  const MAX_INT := 0x7FFF_FFFF_FFFF_FFFF

  predicate AllDigits(s: string) {
    forall i | 0 <= i < |s| :: '0' <= s[i] <= '9'
  }

  /** An optional minus sign and at least one digit. */
  predicate IsNumeral(s: string) {
    if HasPrefix(s, "-") then |s| > 1 && AllDigits(s[1..]) else s != "" && AllDigits(s)
  }

  function DigitsValue(s: string): nat
    requires AllDigits(s)
  {
    if s == "" then 0
    else
      var last := s[|s| - 1];
      10 * DigitsValue(s[..|s| - 1]) + (last as int - '0' as int)
  }

  function Atoi(s: string): Option<int>
    requires IsNumeral(s)
  {
    var value: int := if HasPrefix(s, "-") then -(DigitsValue(s[1..]) as int) else DigitsValue(s);
    if MIN_INT <= value <= MAX_INT then Some(value) else None
  }

  function Digits(n: nat): string {
    var last := [('0' as int + n % 10) as char];
    if n < 10 then last else Digits(n / 10) + last
  }

  function Itoa(z: int): string {
    if z < 0 then "-" + Digits(-z) else Digits(z)
  }

  lemma {:induction false} DigitsRoundTrip(n: nat)
    ensures Digits(n) != ""
    ensures AllDigits(Digits(n))
    ensures DigitsValue(Digits(n)) == n
  {
    var d := Digits(n);
    if n >= 10 {
      DigitsRoundTrip(n / 10);
      assert d[..|d| - 1] == Digits(n / 10);
    } else {
      assert d[..|d| - 1] == "";
    }
  }

  lemma ItoaRoundTrip(z: int)
    requires MIN_INT <= z <= MAX_INT
    ensures IsNumeral(Itoa(z)) && Atoi(Itoa(z)) == Some(z)
  {
    DigitsRoundTrip(if z < 0 then -z else z);
    if z < 0 {
      assert Itoa(z)[1..] == Digits(-z);
    } else {
      assert '0' <= Itoa(z)[0] <= '9';
    }
  }

  lemma ItoaIsInjective(m: nat, n: nat)
    ensures Itoa(m) == Itoa(n) ==> m == n
  {
    DigitsRoundTrip(m);
    DigitsRoundTrip(n);
  }
}
