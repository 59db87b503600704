/** Option and Result, and text in pieces, shared by all modules. */
module Common {
  datatype Option<+T> = None | Some(value: T)

  datatype Result<+T, +E> = Ok(value: T) | Err(error: E)

  function Concat(chunks: seq<string>): string {
    if chunks == [] then "" else chunks[0] + Concat(chunks[1..])
  }

  lemma {:induction false} ConcatAppends(left: seq<string>, right: seq<string>)
    ensures Concat(left + right) == Concat(left) + Concat(right)
  {
    if left == [] {
      assert left + right == right;
    } else {
      assert (left + right)[1..] == left[1..] + right;
      ConcatAppends(left[1..], right);
    }
  }

  lemma ConcatFirst(first: string, others: seq<string>)
    ensures Concat([first] + others) == first + Concat(others)
  {
    assert ([first] + others)[1..] == others;
  }

  lemma ConcatLast(others: seq<string>, last: string)
    ensures Concat(others + [last]) == Concat(others) + last
  {
    ConcatAppends(others, [last]);
    ConcatFirst(last, []);
  }
}
