/** What the two scanners of is-minify/minify.js share: their whitespace test, the
    one-character lookahead, the backslash-escape rule of literals, and the searches that
    say where a literal or a comment ends. */
module Lexing {
  import opened Builtins

  /** `isSpace` of both scanners: space, newline, carriage return, tab and form feed. */
  predicate IsScanSpace(c: char) {
    c == ' ' || c == '\n' || c == '\r' || c == '\t' || c == '\U{C}'
  }

  /** The inner loop of both scanners that skips a whitespace run: where the run from `j0` ends. */
  method SkipSpaces(src: string, j0: nat) returns (j: nat)
    requires j0 <= |src|
    ensures j == SpanEnd(src, j0, IsScanSpace)
  {
    j := j0;
    while j < |src| && IsScanSpace(src[j])
      invariant j0 <= j <= |src|
      invariant SpanEnd(src, j, IsScanSpace) == SpanEnd(src, j0, IsScanSpace)
      decreases |src| - j
    {
      j := j + 1;
    }
  }

  /** Emitting a character and then the slice after it is emitting the slice from it. */
  lemma CharThenSlice(out: string, src: string, i: nat, j: nat)
    requires i < j <= |src|
    ensures out + [src[i]] + src[i + 1..j] == out + src[i..j]
  {
    assert src[i..j] == [src[i]] + src[i + 1..j];
  }

  /** Emitting a character and then the rest of the input is emitting the rest from it. */
  lemma CharThenSuffix(out: string, src: string, i: nat)
    requires i < |src|
    ensures out + [src[i]] + src[i + 1..] == out + src[i..]
  {
    assert src[i..] == [src[i]] + src[i + 1..];
  }

  /** `src[i]`, or JavaScript's `undefined` past the end of the input. */
  function CharAt(src: string, i: nat): Option<char> {
    if i < |src| then Some(src[i]) else None
  }

  // ---------------------------------------------------------------- escapes

  /** How many backslashes stand immediately before position `k`, looking no further back
      than `start` (the first character of the literal's body). */
  function BackslashesBefore(src: string, start: nat, k: nat): nat
    requires start <= k <= |src|
    decreases k
  {
    if k > start && src[k - 1] == '\\' then 1 + BackslashesBefore(src, start, k - 1) else 0
  }

  /** A character of a literal is escaped when an odd number of backslashes precede it. */
  predicate EscapedAt(src: string, start: nat, k: nat)
    requires start <= k <= |src|
  {
    BackslashesBefore(src, start, k) % 2 == 1
  }

  /** Position `k` closes a literal delimited by `q` whose body starts at `start`. */
  predicate ClosesAt(src: string, start: nat, k: nat, q: char)
    requires start <= k < |src|
  {
    src[k] == q && !EscapedAt(src, start, k)
  }

  /** The scanners' update `escape = !escape && c === '\\'` computes exactly whether the next
      character is escaped: the flag is the parity of the backslash run. */
  lemma EscapeFlagIsParity(src: string, start: nat, k: nat)
    requires start <= k < |src|
    ensures EscapedAt(src, start, k + 1) == (!EscapedAt(src, start, k) && src[k] == '\\')
  {
  }

  /** Where a literal delimited by `q` (body starting at `start`) closes, searching from
      `from`: the first unescaped `q`, or the end of the input. */
  function FirstClose(src: string, start: nat, from: nat, q: char): (k: nat)
    requires start <= from <= |src|
    ensures from <= k <= |src|
    ensures k < |src| ==> ClosesAt(src, start, k, q)
    ensures forall j :: from <= j < k ==> !ClosesAt(src, start, j, q)
    decreases |src| - from
  {
    if from == |src| then from
    else if ClosesAt(src, start, from, q) then from
    else FirstClose(src, start, from + 1, q)
  }

  // ---------------------------------------------------------------- comments

  /** Where a `//` comment whose body starts at `from` ends: the first newline, or the end. */
  function FirstNewline(src: string, from: nat): (k: nat)
    requires from <= |src|
    ensures from <= k <= |src|
    ensures k < |src| ==> src[k] == '\n'
    ensures forall j :: from <= j < k ==> src[j] != '\n'
    decreases |src| - from
  {
    if from == |src| || src[from] == '\n' then from else FirstNewline(src, from + 1)
  }

  /** `*` followed by `/` at position `k`. */
  predicate CommentEndAt(src: string, k: nat) {
    k + 1 < |src| && src[k] == '*' && src[k + 1] == '/'
  }

  /** Where a block comment whose body starts at `from` ends: the first star-slash pair, or the end. */
  function FirstCommentEnd(src: string, from: nat): (k: nat)
    requires from <= |src|
    ensures from <= k <= |src|
    ensures k < |src| ==> CommentEndAt(src, k)
    ensures forall j :: from <= j < k ==> !CommentEndAt(src, j)
    decreases |src| - from
  {
    if from == |src| then from
    else if CommentEndAt(src, from) then from
    else FirstCommentEnd(src, from + 1)
  }
}
