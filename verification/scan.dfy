/** `extractSubstringBetween` (usecase.go): the delimiter scanner that splits a path
    segment such as `data[0]` into its index and key, and pulls the `{...}`
    expectation out of a use case's `WantResponse`. */
module Scan {
  import opened Text

  /** The first `s` of `input` comes strictly before its first `e`. */
  predicate FirstBefore(input: string, s: char, e: char)
  {
    exists i, j :: 0 <= i < j < |input| && input[i] == s && input[j] == e && s !in input[..i] && e !in input[..j]
  }

  /** `FirstBefore` in terms of the two `strings.Index` results the source compares. */
  lemma FirstBeforeIndexes(input: string, s: char, e: char)
    ensures FirstBefore(input, s, e) <==>
      (IndexOf(input, s) != -1 && IndexOf(input, e) != -1 && IndexOf(input, s) < IndexOf(input, e))
  {
    if FirstBefore(input, s, e) {
      var i, j :| 0 <= i < j < |input| && input[i] == s && input[j] == e && s !in input[..i] && e !in input[..j];
      IndexOfFirst(input, s, i);
      IndexOfFirst(input, e, j);
    }
  }

  /** `input` starts with `pre`, then `s`, then `mid`, then `e`, where `pre` holds
      neither delimiter and `mid` holds no `e`. */
  predicate Brackets(input: string, s: char, e: char, mid: string, pre: string)
  {
    && |pre| + |mid| + 2 <= |input|
    && input[..|pre|] == pre && input[|pre|] == s
    && input[|pre| + 1..|pre| + 1 + |mid|] == mid && input[|pre| + 1 + |mid|] == e
    && s !in pre && e !in pre && e !in mid && s != e
  }

  /** Returns the text strictly between the first `s` and the first `e`, paired with
      the text before that `s`; anything after the `e` is dropped. When either
      delimiter is missing, or the first `e` does not follow the first `s`, the
      result is `("", input)`. */
  function ExtractSubstringBetween(input: string, s: char, e: char): (r: (string, string))
    ensures FirstBefore(input, s, e) ==> Brackets(input, s, e, r.0, r.1)
    ensures !FirstBefore(input, s, e) ==> r == ("", input)
  {
    FirstBeforeIndexes(input, s, e);
    var i := IndexOf(input, s);
    var j := IndexOf(input, e);
    if i == -1 || j == -1 || i >= j then ("", input)
    else
      var r := (input[i + 1..j], input[..i]);
      assert forall k :: 0 <= k < |r.0| ==> r.0[k] == input[..j][i + 1 + k];
      assert forall k :: 0 <= k < |r.1| ==> r.1[k] == input[..j][k];
      r
  }

  /** The scanner inverts bracketing: wrapping `mid` in the delimiters after a
      delimiter-free `pre` gives `(mid, pre)` back, whatever follows. */
  lemma ExtractBracketed(pre: string, mid: string, rest: string, s: char, e: char)
    requires s != e && s !in pre && e !in pre && e !in mid
    ensures ExtractSubstringBetween(pre + [s] + mid + [e] + rest, s, e) == (mid, pre)
  {
    var input := pre + [s] + mid + [e] + rest;
    DelimiterPositions(pre, mid, rest, s, e);
    ExtractAt(input, s, e, |pre|, |pre| + 1 + |mid|);
    BracketParts(pre, mid, rest, s, e);
  }

  /** The two parts of a bracketed string, as slices. */
  lemma BracketParts(pre: string, mid: string, rest: string, s: char, e: char)
    ensures (pre + [s] + mid + [e] + rest)[..|pre|] == pre
    ensures (pre + [s] + mid + [e] + rest)[|pre| + 1..|pre| + 1 + |mid|] == mid
  {
    var input := pre + [s] + mid + [e] + rest;
    assert input == (pre + [s]) + mid + ([e] + rest);
  }

  /** The scanner's result once the two first occurrences are known. */
  lemma ExtractAt(input: string, s: char, e: char, i: int, j: int)
    requires IndexOf(input, s) == i && IndexOf(input, e) == j && 0 <= i < j
    ensures ExtractSubstringBetween(input, s, e) == (input[i + 1..j], input[..i])
  {
  }

  /** Where the two delimiters of a bracketed string are first found. */
  lemma DelimiterPositions(pre: string, mid: string, rest: string, s: char, e: char)
    requires s != e && s !in pre && e !in pre && e !in mid
    ensures IndexOf(pre + [s] + mid + [e] + rest, s) == |pre|
    ensures IndexOf(pre + [s] + mid + [e] + rest, e) == |pre| + 1 + |mid|
  {
    var input := pre + [s] + mid + [e] + rest;
    var front := pre + [s] + mid;
    assert e !in front by {
      assert forall k :: 0 <= k < |front| ==> front[k] == (if k < |pre| then pre[k] else if k == |pre| then s else mid[k - |pre| - 1]);
    }
    assert input == pre + [s] + (mid + [e] + rest);
    IndexOfAfterPrefix(pre, s, mid + [e] + rest);
    assert input == front + [e] + rest;
    IndexOfAfterPrefix(front, e, rest);
  }
}
