/**
 Splitting of terminal input into one write per line
 (services/runner/internal/engine/terminal_sessions.go, splitTerminalInputChunks).

 `Split` says what the loop computes; `IsExactSplit` says, without mentioning how it is
 computed, what a line split is; `SplitIsTheExactSplit` proves that the two agree, in both
 directions.
 */
module InputChunks {
  import opened Common

  predicate IsBreak(c: char) {
    c == '\r' || c == '\n'
  }

  /** The length of the first chunk: up to and including the first CR, LF or CRLF, or all of it. */
  function ChunkLength(data: string): (n: nat)
    requires data != ""
    ensures 0 < n <= |data|
  {
    if data[0] == '\r' then (if |data| > 1 && data[1] == '\n' then 2 else 1)
    else if data[0] == '\n' || |data| == 1 then 1
    else 1 + ChunkLength(data[1..])
  }

  function Split(data: string): seq<string> {
    if data == "" then []
    else [data[..ChunkLength(data)]] + Split(data[ChunkLength(data)..])
  }

  /** Ends in a line terminator. */
  predicate Terminated(chunk: string) {
    chunk != "" && IsBreak(chunk[|chunk| - 1])
  }

  /** Non-empty, with no line terminator before the one that may end it. */
  predicate SingleLine(chunk: string) {
    && chunk != ""
    && forall i | 0 <= i < |chunk| - 1 ::
         IsBreak(chunk[i]) ==> i == |chunk| - 2 && chunk[i] == '\r' && chunk[i + 1] == '\n'
  }

  /** The boundary between `left` and `right` falls inside a CRLF. */
  predicate CutsCrLf(left: string, right: string) {
    left != "" && right != "" && left[|left| - 1] == '\r' && right[0] == '\n'
  }

  ghost predicate IsExactSplit(data: string, chunks: seq<string>) {
    && Concat(chunks) == data
    && (forall i | 0 <= i < |chunks| :: SingleLine(chunks[i]))
    && (forall i | 0 <= i < |chunks| - 1 :: Terminated(chunks[i]))
    && (forall i | 0 <= i < |chunks| - 1 :: !CutsCrLf(chunks[i], chunks[i + 1]))
  }

  lemma {:induction false} ChunkLengthAt(data: string, k: nat)
    requires k < |data|
    requires forall i | 0 <= i < k :: !IsBreak(data[i])
    requires IsBreak(data[k])
    ensures ChunkLength(data) ==
            if data[k] == '\r' && k + 1 < |data| && data[k + 1] == '\n' then k + 2 else k + 1
  {
    if k > 0 {
      ChunkLengthAt(data[1..], k - 1);
    }
  }

  lemma {:induction false} ChunkLengthWithoutBreak(data: string)
    requires data != ""
    requires forall i | 0 <= i < |data| :: !IsBreak(data[i])
    ensures ChunkLength(data) == |data|
  {
    if |data| > 1 {
      ChunkLengthWithoutBreak(data[1..]);
    }
  }

  lemma {:induction false} FirstChunkIsALine(data: string)
    requires data != ""
    ensures SingleLine(data[..ChunkLength(data)])
    ensures ChunkLength(data) < |data| ==>
              Terminated(data[..ChunkLength(data)]) &&
              !CutsCrLf(data[..ChunkLength(data)], data[ChunkLength(data)..])
  {
    if !IsBreak(data[0]) && |data| > 1 {
      FirstChunkIsALine(data[1..]);
      var n := ChunkLength(data);
      assert data[..n][1..] == data[1..][..n - 1];
      assert data[n..] == data[1..][n - 1..];
      var tail := data[1..][..n - 1];
      forall i | 0 <= i < n - 1 && IsBreak(data[..n][i])
        ensures i == n - 2 && data[..n][i] == '\r' && data[..n][i + 1] == '\n'
      {
        assert tail[i - 1] == data[..n][i];
      }
    }
  }

  /** The first line of `head + rest` is `head`, when `head` is a whole line. */
  lemma {:induction false} ChunkLengthOfLine(head: string, rest: string)
    requires SingleLine(head)
    requires rest != "" ==> Terminated(head) && !CutsCrLf(head, rest)
    ensures ChunkLength(head + rest) == |head|
  {
    var data := head + rest;
    var last := |head| - 1;
    if !Terminated(head) {
      assert data == head;
      ChunkLengthWithoutBreak(data);
    } else if last > 0 && IsBreak(head[last - 1]) {
      ChunkLengthAt(data, last - 1);
    } else {
      assert forall i | 0 <= i < last :: data[i] == head[i];
      ChunkLengthAt(data, last);
    }
  }

  lemma {:induction false} SplitIsExact(data: string)
    ensures IsExactSplit(data, Split(data))
  {
    if data != "" {
      var n := ChunkLength(data);
      FirstChunkIsALine(data);
      SplitIsExact(data[n..]);
      assert Split(data)[1..] == Split(data[n..]);
      if n < |data| {
        assert Split(data)[1] == data[n..][..ChunkLength(data[n..])];
        assert Split(data)[1][0] == data[n..][0];
      }
      forall i | 1 <= i < |Split(data)|
        ensures Split(data)[i] == Split(data[n..])[i - 1]
      {
      }
    }
  }

  lemma {:induction false} ExactSplitIsUnique(data: string, chunks: seq<string>)
    requires IsExactSplit(data, chunks)
    ensures chunks == Split(data)
  {
    if chunks != [] {
      var rest := Concat(chunks[1..]);
      assert data == chunks[0] + rest;
      assert rest != "" ==> |chunks| > 1;
      if |chunks| > 1 {
        assert SingleLine(chunks[1]);
        assert rest[0] == chunks[1][0];
      }
      ChunkLengthOfLine(chunks[0], rest);
      assert data[|chunks[0]|..] == rest;
      ExactSplitIsUnique(rest, chunks[1..]);
    }
  }

  /** `Split` is the line split, and there is no other. */
  lemma SplitIsTheExactSplit(data: string, chunks: seq<string>)
    ensures chunks == Split(data) <==> IsExactSplit(data, chunks)
  {
    SplitIsExact(data);
    if IsExactSplit(data, chunks) {
      ExactSplitIsUnique(data, chunks);
    }
  }

  lemma {:induction false} LastChunkEndsTheData(data: string)
    requires data != ""
    ensures var last := Split(data)[|Split(data)| - 1];
            last != "" && last[|last| - 1] == data[|data| - 1]
  {
    var n := ChunkLength(data);
    if n < |data| {
      var rest := Split(data[n..]);
      LastChunkEndsTheData(data[n..]);
      assert Split(data) == [data[..n]] + rest && rest != [];
      assert data[n..][|data[n..]| - 1] == data[|data| - 1];
    } else {
      assert data[..n] == data && Split(data[n..]) == [];
    }
  }

  /** Where the splits of `a` and `b` meet in `Split(a) + Split(b)`. */
  lemma SplitsMeet(a: string, b: string)
    requires a != "" && b != ""
    ensures var left, right := Split(a), Split(b);
            && Terminated(left[|left| - 1]) == Terminated(a)
            && CutsCrLf(left[|left| - 1], right[0]) == CutsCrLf(a, b)
  {
    LastChunkEndsTheData(a);
    var first := Split(b)[0];
    assert first == b[..ChunkLength(b)] && first[0] == b[0];
  }

  lemma ExactSplitsConcatenate(a: string, b: string)
    requires a != "" && b != ""
    requires Terminated(a) && !CutsCrLf(a, b)
    ensures IsExactSplit(a + b, Split(a) + Split(b))
  {
    var left, right := Split(a), Split(b);
    var both := left + right;
    SplitIsExact(a);
    SplitIsExact(b);
    ConcatAppends(left, right);
    SplitsMeet(a, b);
    forall i | 0 <= i < |both| - 1
      ensures Terminated(both[i]) && !CutsCrLf(both[i], both[i + 1])
    {
      if i < |left| {
        assert both[i] == left[i];
      } else {
        assert both[i] == right[i - |left|] && both[i + 1] == right[i + 1 - |left|];
      }
    }
  }

  lemma ConcatenatedSplitsMeetAtALineEnd(a: string, b: string)
    requires a != "" && b != ""
    requires Split(a + b) == Split(a) + Split(b)
    ensures Terminated(a) && !CutsCrLf(a, b)
  {
    var both := Split(a) + Split(b);
    var i := |Split(a)| - 1;
    SplitIsExact(a + b);
    SplitsMeet(a, b);
    assert both[i] == Split(a)[i] && both[i + 1] == Split(b)[0];
  }

  /** Exactly when cutting the input in two does not change how it is written. */
  lemma SplitAppends(a: string, b: string)
    ensures Split(a + b) == Split(a) + Split(b)
       <==> a == "" || b == "" || (Terminated(a) && !CutsCrLf(a, b))
  {
    if a == "" || b == "" {
      assert a + b == if a == "" then b else a;
    } else if Terminated(a) && !CutsCrLf(a, b) {
      ExactSplitsConcatenate(a, b);
      ExactSplitIsUnique(a + b, Split(a) + Split(b));
    } else if Split(a + b) == Split(a) + Split(b) {
      ConcatenatedSplitsMeetAtALineEnd(a, b);
    }
  }

  /** Cutting the next line off what is still to be split. */
  lemma TakeLine(data: string, chunks: seq<string>, start: nat, end: nat)
    requires start < end <= |data|
    requires ChunkLength(data[start..]) == end - start
    ensures chunks + Split(data[start..]) == chunks + [data[start..end]] + Split(data[end..])
  {
    assert data[start..][..end - start] == data[start..end];
    assert data[start..][end - start..] == data[end..];
  }

  lemma TakeTerminatedLine(data: string, chunks: seq<string>, start: nat, index: nat, end: nat)
    requires start <= index < end <= |data|
    requires forall i | start <= i < index :: !IsBreak(data[i])
    requires IsBreak(data[index])
    requires end == if data[index] == '\r' && index + 1 < |data| && data[index + 1] == '\n' then index + 2 else index + 1
    ensures chunks + Split(data[start..]) == chunks + [data[start..end]] + Split(data[end..])
  {
    ChunkLengthAt(data[start..], index - start);
    TakeLine(data, chunks, start, end);
  }

  lemma TakeLastLine(data: string, chunks: seq<string>, start: nat)
    requires start < |data|
    requires forall i | start <= i < |data| :: !IsBreak(data[i])
    ensures chunks + Split(data[start..]) == chunks + [data[start..]]
  {
    ChunkLengthWithoutBreak(data[start..]);
    TakeLine(data, chunks, start, |data|);
    assert data[start..|data|] == data[start..];
    assert Split(data[|data|..]) == [];
  }

  method SplitTerminalInputChunks(data: string) returns (chunks: seq<string>)
    ensures chunks == Split(data)
  {
    if data == "" {
      return [];
    }

    chunks := [];
    var start := 0;
    var index := 0;
    while index < |data|
      invariant 0 <= start <= index <= |data|
      invariant forall i | start <= i < index :: !IsBreak(data[i])
      invariant chunks + Split(data[start..]) == Split(data)
    {
      if data[index] == '\r' {
        var end := index + 1;
        if end < |data| && data[end] == '\n' {
          end := end + 1;
        }
        TakeTerminatedLine(data, chunks, start, index, end);
        chunks := chunks + [data[start..end]];
        start := end;
        index := end - 1;
      } else if data[index] == '\n' {
        var end := index + 1;
        TakeTerminatedLine(data, chunks, start, index, end);
        chunks := chunks + [data[start..end]];
        start := end;
      }
      index := index + 1;
    }

    if start < |data| {
      TakeLastLine(data, chunks, start);
      chunks := chunks + [data[start..]];
    } else {
      assert chunks + Split(data[start..]) == chunks;
    }
  }
}
