/** `minifyJS` of is-minify/minify.js: a one-pass scanner that drops comments, copies string,
    template and regex literals as they stand, collapses whitespace outside literals, and then
    hands its output to the textual post-pass.

    The scanner is a method with the program's own flags. It is proved against `Step`, a
    function on an abstract state whose `Mode` names the one context the flags encode
    (`ModeOf`). `Run` iterates `Step` to the end of the input, and the lemmas below say what
    `Run` does to each kind of token. */
module JsMinifier {
  import opened Builtins
  import opened Lexing
  import PostPass

  /** The lexical context. A literal mode carries the escape flag, a template also the
      number of `${` it is nested in. */
  datatype Mode =
    | Code
    | Quoted(quote: char, escaped: bool)
    | Template(exprDepth: nat, escaped: bool)
    | Regex(escaped: bool)
    | LineComment
    | BlockComment

  /** Where the scan is, in which context, the last character emitted (`lastOut`, absent
      before anything is emitted), and the output so far. */
  datatype Scan = Scan(pos: nat, mode: Mode, lastOut: Option<char>, out: string)

  function Initial(): Scan {
    Scan(0, Code, None, [])
  }

  /** `[A-Za-z0-9_$]` */
  predicate IsWordChar(c: char) {
    IsAlnum(c) || c == '_' || c == '$'
  }

  /** `needSpaceBetween`: dropping the whitespace between these two would fuse two tokens. */
  predicate NeedSpaceBetween(a: char, b: char) {
    IsWordChar(a) && IsWordChar(b)
  }

  /** `canStartRegexAfter`: a slash opens a regular expression at the very start, after one
      of `( , = : [ ! & | ? { ;`, or after an operator character `+ - * / % < > ^ ~`. */
  predicate CanStartRegexAfter(last: Option<char>) {
    match last
    case None => true
    case Some(c) =>
      c == '(' || c == ',' || c == '=' || c == ':' || c == '[' || c == '!' || c == '&'
      || c == '|' || c == '?' || c == '{' || c == ';'
      || c == '+' || c == '-' || c == '*' || c == '/' || c == '%' || c == '<' || c == '>'
      || c == '^' || c == '~'
  }

  /** One turn of the scanner's loop. */
  function Step(src: string, s: Scan): (t: Scan)
    requires s.pos < |src|
    ensures s.pos < t.pos <= |src|
    ensures s.out <= t.out && |t.out| - |s.out| <= t.pos - s.pos
  {
    var c := src[s.pos];
    var next := CharAt(src, s.pos + 1);
    match s.mode
    case LineComment =>
      if c == '\n' then Scan(s.pos + 1, Code, Some('\n'), s.out + ['\n'])
      else s.(pos := s.pos + 1)
    case BlockComment =>
      if c == '*' && next == Some('/') then s.(pos := s.pos + 2, mode := Code)
      else s.(pos := s.pos + 1)
    case Quoted(q, esc) =>
      var mode := if !esc && c == q then Code else Quoted(q, !esc && c == '\\');
      Scan(s.pos + 1, mode, Some(c), s.out + [c])
    case Template(d, esc) =>
      if !esc && c == '`' && d == 0 then
        Scan(s.pos + 1, Code, Some(c), s.out + [c])
      else if !esc && c == '$' && next == Some('{') then
        Scan(s.pos + 2, Template(d + 1, false), Some(c), s.out + [c, '{'])
      else
        var depth := if !esc && c == '}' && d > 0 then d - 1 else d;
        Scan(s.pos + 1, Template(depth, !esc && c == '\\'), Some(c), s.out + [c])
    case Regex(esc) =>
      var mode := if !esc && c == '/' then Code else Regex(!esc && c == '\\');
      Scan(s.pos + 1, mode, Some(c), s.out + [c])
    case Code =>
      if c == '/' && next == Some('/') then s.(pos := s.pos + 2, mode := LineComment)
      else if c == '/' && next == Some('*') then s.(pos := s.pos + 2, mode := BlockComment)
      else if c == '"' || c == '\'' then Scan(s.pos + 1, Quoted(c, false), Some(c), s.out + [c])
      else if c == '`' then Scan(s.pos + 1, Template(0, false), Some(c), s.out + [c])
      else if c == '/' && CanStartRegexAfter(s.lastOut) then
        Scan(s.pos + 1, Regex(false), Some(c), s.out + [c])
      else if IsScanSpace(c) then
        var j := SpanEnd(src, s.pos + 1, IsScanSpace);
        if s.lastOut.Some? && j < |src| && NeedSpaceBetween(s.lastOut.value, src[j]) then
          Scan(j, Code, Some(' '), s.out + [' '])
        else
          s.(pos := j)
      else
        Scan(s.pos + 1, Code, Some(c), s.out + [c])
  }

  /** The scanner's output from state `s` to the end of the input. It never emits more
      characters than it reads. */
  function Run(src: string, s: Scan): (r: string)
    requires s.pos <= |src|
    ensures |r| - |s.out| <= |src| - s.pos
    decreases |src| - s.pos
  {
    if s.pos == |src| then s.out else Run(src, Step(src, s))
  }

  /** A scan and the scan one step later produce the same output. */
  lemma RunThrough(src: string, s: Scan, u: Scan)
    requires s.pos < |src| && Step(src, s) == u
    ensures Run(src, s) == Run(src, u)
  {
  }

  /** The scanner only appends: its output extends what was already emitted. */
  lemma {:induction false} RunExtends(src: string, s: Scan)
    requires s.pos <= |src|
    ensures s.out <= Run(src, s)
    decreases |src| - s.pos
  {
    if s.pos < |src| {
      RunExtends(src, Step(src, s));
    }
  }

  // ---------------------------------------------------------------- literals

  predicate IsLiteral(m: Mode) {
    m.Quoted? || m.Template? || m.Regex?
  }

  /** Inside a string, template or regex literal every character read is emitted unchanged
      (a `${` included), until the scanner is back in code or the input ends. */
  lemma {:induction false} LiteralVerbatim(src: string, s: Scan) returns (t: Scan)
    requires s.pos <= |src| && IsLiteral(s.mode)
    ensures s.pos <= t.pos <= |src|
    ensures t.out == s.out + src[s.pos..t.pos]
    ensures t.pos == |src| || t.mode == Code
    ensures Run(src, s) == Run(src, t)
    decreases |src| - s.pos
  {
    if s.pos == |src| {
      t := s;
    } else {
      var u := Step(src, s);
      LiteralStepVerbatim(src, s);
      if u.mode == Code {
        t := u;
      } else {
        t := LiteralVerbatim(src, u);
        assert src[s.pos..t.pos] == src[s.pos..u.pos] + src[u.pos..t.pos];
      }
    }
  }

  /** One step inside a literal emits what it reads and stays in a literal or returns to
      code. */
  lemma LiteralStepVerbatim(src: string, s: Scan)
    requires s.pos < |src| && IsLiteral(s.mode)
    ensures var u := Step(src, s);
      u.out == s.out + src[s.pos..u.pos] && (u.mode == Code || IsLiteral(u.mode))
  {
    var u := Step(src, s);
    if s.mode.Template? && u.pos == s.pos + 2 {
      assert src[s.pos..u.pos] == [src[s.pos], src[s.pos + 1]];
    } else {
      assert src[s.pos..u.pos] == [src[s.pos]];
    }
  }

  /** The mode of a literal delimited by `q`: a string for a quote, a regex for a slash. */
  function LiteralMode(q: char, escaped: bool): Mode {
    if q == '/' then Regex(escaped) else Quoted(q, escaped)
  }

  /** One step inside a string or regex literal: the character is emitted and the escape
      flag becomes the parity of the backslash run, unless the character closes the literal. */
  lemma LiteralStep(src: string, start: nat, s: Scan, q: char)
    requires q == '"' || q == '\'' || q == '/'
    requires start <= s.pos < |src|
    requires s.mode == LiteralMode(q, EscapedAt(src, start, s.pos))
    ensures Step(src, s) == Scan(s.pos + 1,
      if ClosesAt(src, start, s.pos, q) then Code else LiteralMode(q, EscapedAt(src, start, s.pos + 1)),
      Some(src[s.pos]), s.out + [src[s.pos]])
  {
    EscapeFlagIsParity(src, start, s.pos);
  }

  /** The same step, seen from the output of the rest of the scan. */
  lemma LiteralRunStep(src: string, start: nat, s: Scan, q: char)
    requires q == '"' || q == '\'' || q == '/'
    requires start <= s.pos < |src|
    requires s.mode == LiteralMode(q, EscapedAt(src, start, s.pos))
    ensures Run(src, s) == Run(src, Scan(s.pos + 1,
      if ClosesAt(src, start, s.pos, q) then Code else LiteralMode(q, EscapedAt(src, start, s.pos + 1)),
      Some(src[s.pos]), s.out + [src[s.pos]]))
  {
    LiteralStep(src, start, s, q);
  }

  /** A string or regex literal whose body starts at `start` is copied up to and including
      its first delimiter not preceded by an odd number of backslashes, and the scanner is
      then back in code with that delimiter as `lastOut`. */
  lemma {:induction false} LiteralCloses(src: string, start: nat, s: Scan, q: char)
    requires q == '"' || q == '\'' || q == '/'
    requires start <= s.pos <= |src|
    requires s.mode == LiteralMode(q, EscapedAt(src, start, s.pos))
    requires FirstClose(src, start, s.pos, q) < |src|
    ensures var k := FirstClose(src, start, s.pos, q);
      Run(src, s) == Run(src, Scan(k + 1, Code, Some(q), s.out + src[s.pos..k + 1]))
    decreases |src| - s.pos
  {
    if ClosesAt(src, start, s.pos, q) {
      LiteralClosesHere(src, start, s, q);
    } else {
      var u := Scan(s.pos + 1, LiteralMode(q, EscapedAt(src, start, s.pos + 1)), Some(src[s.pos]), s.out + [src[s.pos]]);
      LiteralCloses(src, start, u, q);
      LiteralClosesLater(src, start, s, q, u);
    }
  }

  /** The first character read closes the literal. */
  lemma LiteralClosesHere(src: string, start: nat, s: Scan, q: char)
    requires q == '"' || q == '\'' || q == '/'
    requires start <= s.pos < |src|
    requires s.mode == LiteralMode(q, EscapedAt(src, start, s.pos))
    requires ClosesAt(src, start, s.pos, q)
    ensures var k := FirstClose(src, start, s.pos, q);
      Run(src, s) == Run(src, Scan(k + 1, Code, Some(q), s.out + src[s.pos..k + 1]))
  {
    LiteralRunStep(src, start, s, q);
    assert FirstClose(src, start, s.pos, q) == s.pos;
    assert src[s.pos..s.pos + 1] == [src[s.pos]];
  }

  /** The first character read is copied, and the literal closes further on. */
  lemma LiteralClosesLater(src: string, start: nat, s: Scan, q: char, u: Scan)
    requires q == '"' || q == '\'' || q == '/'
    requires start <= s.pos < |src|
    requires s.mode == LiteralMode(q, EscapedAt(src, start, s.pos))
    requires !ClosesAt(src, start, s.pos, q)
    requires FirstClose(src, start, s.pos, q) < |src|
    requires u == Scan(s.pos + 1, LiteralMode(q, EscapedAt(src, start, s.pos + 1)), Some(src[s.pos]), s.out + [src[s.pos]])
    requires var k := FirstClose(src, start, u.pos, q);
      Run(src, u) == Run(src, Scan(k + 1, Code, Some(q), u.out + src[u.pos..k + 1]))
    ensures var k := FirstClose(src, start, s.pos, q);
      Run(src, s) == Run(src, Scan(k + 1, Code, Some(q), s.out + src[s.pos..k + 1]))
  {
    LiteralCopyStep(src, start, s, q, u);
    SameClose(src, start, s, q, u);
  }

  /** The state a literal closes into is the same seen from before or after a copied
      character. */
  lemma SameClose(src: string, start: nat, s: Scan, q: char, u: Scan)
    requires start <= s.pos < |src|
    requires !ClosesAt(src, start, s.pos, q)
    requires FirstClose(src, start, s.pos, q) < |src|
    requires u.pos == s.pos + 1 && u.out == s.out + [src[s.pos]]
    ensures var k := FirstClose(src, start, s.pos, q);
      k == FirstClose(src, start, u.pos, q)
      && Scan(k + 1, Code, Some(q), u.out + src[u.pos..k + 1])
        == Scan(k + 1, Code, Some(q), s.out + src[s.pos..k + 1])
  {
    var k := FirstClose(src, start, s.pos, q);
    CharThenSlice(s.out, src, s.pos, k + 1);
  }

  /** A character that does not close the literal is copied. */
  lemma LiteralCopyStep(src: string, start: nat, s: Scan, q: char, u: Scan)
    requires q == '"' || q == '\'' || q == '/'
    requires start <= s.pos < |src|
    requires s.mode == LiteralMode(q, EscapedAt(src, start, s.pos))
    requires !ClosesAt(src, start, s.pos, q)
    requires u == Scan(s.pos + 1, LiteralMode(q, EscapedAt(src, start, s.pos + 1)), Some(src[s.pos]), s.out + [src[s.pos]])
    ensures Run(src, s) == Run(src, u)
  {
    LiteralRunStep(src, start, s, q);
  }

  /** Without such a delimiter the literal runs to the end of the input, copied as it stands. */
  lemma {:induction false} LiteralUnclosed(src: string, start: nat, s: Scan, q: char)
    requires q == '"' || q == '\'' || q == '/'
    requires start <= s.pos <= |src|
    requires s.mode == LiteralMode(q, EscapedAt(src, start, s.pos))
    requires FirstClose(src, start, s.pos, q) == |src|
    ensures Run(src, s) == s.out + src[s.pos..]
    decreases |src| - s.pos
  {
    if s.pos < |src| {
      var c := src[s.pos];
      LiteralRunStep(src, start, s, q);
      assert !ClosesAt(src, start, s.pos, q);
      assert FirstClose(src, start, s.pos + 1, q) == |src|;
      var u := Scan(s.pos + 1, LiteralMode(q, EscapedAt(src, start, s.pos + 1)), Some(c), s.out + [c]);
      LiteralUnclosed(src, start, u, q);
      assert src[s.pos..] == [c] + src[s.pos + 1..];
    }
  }

  /** A literal opened at `s.pos` by `q` (its body starts at `s.pos + 1`) and closed. */
  lemma OpenedLiteralCloses(src: string, s: Scan, q: char)
    requires q == '"' || q == '\'' || q == '/'
    requires s.mode == Code && s.pos < |src| && src[s.pos] == q
    requires Step(src, s) == Scan(s.pos + 1, LiteralMode(q, false), Some(q), s.out + [q])
    requires FirstClose(src, s.pos + 1, s.pos + 1, q) < |src|
    ensures var k := FirstClose(src, s.pos + 1, s.pos + 1, q);
      Run(src, s) == Run(src, Scan(k + 1, Code, Some(q), s.out + src[s.pos..k + 1]))
  {
    var u := Scan(s.pos + 1, LiteralMode(q, false), Some(q), s.out + [q]);
    RunThrough(src, s, u);
    BodyCloses(src, s.pos, s.out, q, u);
  }

  /** The body of a literal opened at `open`, copied after the opening delimiter. */
  lemma BodyCloses(src: string, open: nat, out: string, q: char, u: Scan)
    requires q == '"' || q == '\'' || q == '/'
    requires open < |src| && src[open] == q
    requires u == Scan(open + 1, LiteralMode(q, false), Some(q), out + [q])
    requires FirstClose(src, open + 1, open + 1, q) < |src|
    ensures var k := FirstClose(src, open + 1, open + 1, q);
      Run(src, u) == Run(src, Scan(k + 1, Code, Some(q), out + src[open..k + 1]))
  {
    var k := FirstClose(src, open + 1, open + 1, q);
    LiteralCloses(src, open + 1, u, q);
    CharThenSlice(out, src, open, k + 1);
  }

  /** A literal opened at `s.pos` by `q` and never closed. */
  lemma OpenedLiteralUnclosed(src: string, s: Scan, q: char)
    requires q == '"' || q == '\'' || q == '/'
    requires s.mode == Code && s.pos < |src| && src[s.pos] == q
    requires Step(src, s) == Scan(s.pos + 1, LiteralMode(q, false), Some(q), s.out + [q])
    requires FirstClose(src, s.pos + 1, s.pos + 1, q) == |src|
    ensures Run(src, s) == s.out + src[s.pos..]
  {
    var u := Scan(s.pos + 1, LiteralMode(q, false), Some(q), s.out + [q]);
    RunThrough(src, s, u);
    LiteralUnclosed(src, s.pos + 1, u, q);
    CharThenSuffix(s.out, src, s.pos);
  }

  lemma OpenedLiteral(src: string, s: Scan, q: char)
    requires q == '"' || q == '\'' || q == '/'
    requires s.mode == Code && s.pos < |src| && src[s.pos] == q
    requires Step(src, s) == Scan(s.pos + 1, LiteralMode(q, false), Some(q), s.out + [q])
    ensures var k := FirstClose(src, s.pos + 1, s.pos + 1, q);
      if k < |src| then Run(src, s) == Run(src, Scan(k + 1, Code, Some(q), s.out + src[s.pos..k + 1]))
      else Run(src, s) == s.out + src[s.pos..]
  {
    if FirstClose(src, s.pos + 1, s.pos + 1, q) < |src| {
      OpenedLiteralCloses(src, s, q);
    } else {
      OpenedLiteralUnclosed(src, s, q);
    }
  }

  /** A quote outside literals opens a string. The string is copied as it stands up to and
      including the first quote of its kind that no odd run of backslashes escapes, and the
      scanner is then back in code with that quote as `lastOut`; an unclosed string runs to
      the end of the input. */
  lemma StringLiteral(src: string, s: Scan)
    requires s.mode == Code && s.pos < |src| && (src[s.pos] == '"' || src[s.pos] == '\'')
    ensures var q := src[s.pos]; var k := FirstClose(src, s.pos + 1, s.pos + 1, q);
      if k < |src| then Run(src, s) == Run(src, Scan(k + 1, Code, Some(q), s.out + src[s.pos..k + 1]))
      else Run(src, s) == s.out + src[s.pos..]
  {
    OpenedLiteral(src, s, src[s.pos]);
  }

  /** A slash outside literals that does not start a comment opens a regular expression iff
      `CanStartRegexAfter(lastOut)`. A regex is copied like a string delimited by slashes;
      otherwise the slash is emitted as a division operator. */
  lemma SlashOutsideLiterals(src: string, s: Scan)
    requires s.mode == Code && s.pos < |src| && src[s.pos] == '/'
    requires CharAt(src, s.pos + 1) != Some('/') && CharAt(src, s.pos + 1) != Some('*')
    ensures CanStartRegexAfter(s.lastOut) ==>
      var k := FirstClose(src, s.pos + 1, s.pos + 1, '/');
      if k < |src| then Run(src, s) == Run(src, Scan(k + 1, Code, Some('/'), s.out + src[s.pos..k + 1]))
      else Run(src, s) == s.out + src[s.pos..]
    ensures !CanStartRegexAfter(s.lastOut) ==>
      Run(src, s) == Run(src, Scan(s.pos + 1, Code, Some('/'), s.out + ['/']))
  {
    if CanStartRegexAfter(s.lastOut) {
      OpenedLiteral(src, s, '/');
    }
  }

  /** No word character lets a slash open a regex: after `return` a slash divides. */
  lemma WordCharThenSlashDivides(c: char)
    requires IsWordChar(c)
    ensures !CanStartRegexAfter(Some(c))
  {
  }

  // ---------------------------------------------------------------- comments

  lemma {:induction false} InLineComment(src: string, s: Scan)
    requires s.pos <= |src| && s.mode == LineComment
    ensures var k := FirstNewline(src, s.pos);
      if k < |src| then Run(src, s) == Run(src, Scan(k + 1, Code, Some('\n'), s.out + ['\n']))
      else Run(src, s) == s.out
    decreases |src| - s.pos
  {
    if s.pos < |src| && src[s.pos] != '\n' {
      InLineComment(src, Step(src, s));
    }
  }

  /** A `//` comment outside literals is dropped up to its newline, which is emitted and
      becomes `lastOut`; a comment without a newline drops the rest of the input. */
  lemma LineCommentDropped(src: string, s: Scan)
    requires s.mode == Code && s.pos + 1 < |src| && src[s.pos] == '/' && src[s.pos + 1] == '/'
    ensures var k := FirstNewline(src, s.pos + 2);
      if k < |src| then Run(src, s) == Run(src, Scan(k + 1, Code, Some('\n'), s.out + ['\n']))
      else Run(src, s) == s.out
  {
    InLineComment(src, Step(src, s));
  }

  lemma {:induction false} InBlockComment(src: string, s: Scan)
    requires s.pos <= |src| && s.mode == BlockComment
    ensures var k := FirstCommentEnd(src, s.pos);
      if k < |src| then Run(src, s) == Run(src, s.(pos := k + 2, mode := Code))
      else Run(src, s) == s.out
    decreases |src| - s.pos
  {
    if s.pos < |src| && !CommentEndAt(src, s.pos) {
      InBlockComment(src, Step(src, s));
    }
  }

  /** A block comment outside literals is dropped with its markers; nothing is emitted for
      it and `lastOut` is left as it was. An unclosed one drops the rest of the input. */
  lemma BlockCommentDropped(src: string, s: Scan)
    requires s.mode == Code && s.pos + 1 < |src| && src[s.pos] == '/' && src[s.pos + 1] == '*'
    ensures var k := FirstCommentEnd(src, s.pos + 2);
      if k < |src| then Run(src, s) == Run(src, s.(pos := k + 2))
      else Run(src, s) == s.out
  {
    InBlockComment(src, Step(src, s));
  }

  // ---------------------------------------------------------------- whitespace

  /** A whitespace run outside literals, ending before position `j`, emits one space iff
      something was emitted before it, something follows it, and both of those are word
      characters; otherwise it emits nothing. */
  lemma WhitespaceRun(src: string, s: Scan, j: nat)
    requires s.mode == Code && s.pos < j <= |src|
    requires forall k :: s.pos <= k < j ==> IsScanSpace(src[k])
    requires j == |src| || !IsScanSpace(src[j])
    ensures var sp := s.lastOut.Some? && j < |src| && NeedSpaceBetween(s.lastOut.value, src[j]);
      Run(src, s) == Run(src, if sp then Scan(j, Code, Some(' '), s.out + [' ']) else s.(pos := j))
  {
    SpanEndUnique(src, s.pos + 1, IsScanSpace, j);
  }

  // ---------------------------------------------------------------- examples

  /** In code, a character that opens nothing is emitted and becomes `lastOut`. */
  lemma CodeCharStep(src: string, s: Scan, out: string)
    requires s.mode == Code && s.pos < |src|
    requires var c := src[s.pos]; !IsScanSpace(c) && c != '"' && c != '\'' && c != '`'
    requires src[s.pos] == '/' ==>
      CharAt(src, s.pos + 1) != Some('/') && CharAt(src, s.pos + 1) != Some('*') && !CanStartRegexAfter(s.lastOut)
    requires out == s.out + [src[s.pos]]
    ensures Run(src, s) == Run(src, Scan(s.pos + 1, Code, Some(src[s.pos]), out))
  {
  }

  /** In code, a single whitespace character that need not be kept is dropped. */
  lemma CodeSpaceDropped(src: string, s: Scan)
    requires s.mode == Code && s.pos + 1 < |src| && IsScanSpace(src[s.pos]) && !IsScanSpace(src[s.pos + 1])
    requires !(s.lastOut.Some? && NeedSpaceBetween(s.lastOut.value, src[s.pos + 1]))
    ensures Run(src, s) == Run(src, s.(pos := s.pos + 1))
  {
    WhitespaceRun(src, s, s.pos + 1);
  }

  /** In code, a slash after which a regex may start opens one. */
  lemma RegexOpenStep(src: string, s: Scan, out: string)
    requires s.mode == Code && s.pos < |src| && src[s.pos] == '/'
    requires CharAt(src, s.pos + 1) != Some('/') && CharAt(src, s.pos + 1) != Some('*')
    requires CanStartRegexAfter(s.lastOut)
    requires out == s.out + ['/']
    ensures Run(src, s) == Run(src, Scan(s.pos + 1, Regex(false), Some('/'), out))
  {
  }

  /** In a regex with no pending escape, a character other than a backslash is emitted, and
      a slash closes the regex. */
  lemma RegexCharStep(src: string, s: Scan, out: string)
    requires s.mode == Regex(false) && s.pos < |src| && src[s.pos] != '\\'
    requires out == s.out + [src[s.pos]]
    ensures Run(src, s)
      == Run(src, Scan(s.pos + 1, if src[s.pos] == '/' then Code else Regex(false), Some(src[s.pos]), out))
  {
  }

  /** After a word a slash divides: the spaces around both slashes are dropped. */
  lemma DivisionAfterWord(src: string)
    requires src == "a / b /"
    ensures Run(src, Initial()) == "a/b/"
  {
    CodeCharStep(src, Initial(), "a");
    CodeSpaceDropped(src, Scan(1, Code, Some('a'), "a"));
    WordCharThenSlashDivides('a');
    CodeCharStep(src, Scan(2, Code, Some('a'), "a"), "a/");
    DivisionAfterWordFrom3(src);
  }

  lemma DivisionAfterWordFrom3(src: string)
    requires src == "a / b /"
    ensures Run(src, Scan(3, Code, Some('/'), "a/")) == "a/b/"
  {
    CodeSpaceDropped(src, Scan(3, Code, Some('/'), "a/"));
    CodeCharStep(src, Scan(4, Code, Some('/'), "a/"), "a/b");
    CodeSpaceDropped(src, Scan(5, Code, Some('b'), "a/b"));
    WordCharThenSlashDivides('b');
    CodeCharStep(src, Scan(6, Code, Some('b'), "a/b"), "a/b/");
  }

  /** After `(` a slash opens a regular expression, whose spaces are kept. */
  lemma RegexAfterParen(src: string)
    requires src == "(/ a /)"
    ensures Run(src, Initial()) == "(/ a /)"
  {
    CodeCharStep(src, Initial(), "(");
    RegexAfterParenFrom1(src);
  }

  lemma RegexAfterParenFrom1(src: string)
    requires src == "(/ a /)"
    ensures Run(src, Scan(1, Code, Some('('), "(")) == "(/ a /)"
  {
    RegexOpenStep(src, Scan(1, Code, Some('('), "("), "(/");
    RegexCharStep(src, Scan(2, Regex(false), Some('/'), "(/"), "(/ ");
    RegexAfterParenFrom3(src);
  }

  lemma RegexAfterParenFrom3(src: string)
    requires src == "(/ a /)"
    ensures Run(src, Scan(3, Regex(false), Some(' '), "(/ ")) == "(/ a /)"
  {
    RegexCharStep(src, Scan(3, Regex(false), Some(' '), "(/ "), "(/ a");
    RegexCharStep(src, Scan(4, Regex(false), Some('a'), "(/ a"), "(/ a ");
    RegexAfterParenFrom5(src);
  }

  lemma RegexAfterParenFrom5(src: string)
    requires src == "(/ a /)"
    ensures Run(src, Scan(5, Regex(false), Some(' '), "(/ a ")) == "(/ a /)"
  {
    RegexCharStep(src, Scan(5, Regex(false), Some(' '), "(/ a "), "(/ a /");
    CodeCharStep(src, Scan(6, Code, Some('/'), "(/ a /"), "(/ a /)");
  }

  /** A block comment between two words is dropped without a space, joining them. */
  lemma BlockCommentJoinsWords()
    ensures Run("a/**/b", Initial()) == "ab"
  {
    var src := "a/**/b";
    assert Run(src, Scan(6, Code, Some('b'), "ab")) == "ab";
    assert Step(src, Scan(5, Code, Some('a'), "a")) == Scan(6, Code, Some('b'), "ab");
    assert Step(src, Scan(3, BlockComment, Some('a'), "a")) == Scan(5, Code, Some('a'), "a");
    assert Step(src, Scan(1, Code, Some('a'), "a")) == Scan(3, BlockComment, Some('a'), "a");
    assert Step(src, Scan(0, Code, None, "")) == Scan(1, Code, Some('a'), "a");
  }

  /** A line comment is dropped but its newline is kept, and the whitespace after it is then dropped. */
  lemma LineCommentKeepsNewline()
    ensures Run("a //c\n b", Initial()) == "a\nb"
  {
    var src := "a //c\n b";
    assert Run(src, Scan(8, Code, Some('b'), "a\nb")) == "a\nb";
    assert Step(src, Scan(7, Code, Some('\n'), "a\n")) == Scan(8, Code, Some('b'), "a\nb");
    assert Step(src, Scan(6, Code, Some('\n'), "a\n")) == Scan(7, Code, Some('\n'), "a\n");
    assert Step(src, Scan(5, LineComment, Some('a'), "a")) == Scan(6, Code, Some('\n'), "a\n");
    assert Step(src, Scan(4, LineComment, Some('a'), "a")) == Scan(5, LineComment, Some('a'), "a");
    assert Step(src, Scan(2, Code, Some('a'), "a")) == Scan(4, LineComment, Some('a'), "a");
    assert Step(src, Scan(1, Code, Some('a'), "a")) == Scan(2, Code, Some('a'), "a");
    assert Step(src, Scan(0, Code, None, "")) == Scan(1, Code, Some('a'), "a");
  }

  /** A newline between two words becomes a single space. */
  lemma NewlineBetweenWords()
    ensures Run("a\nb", Initial()) == "a b"
  {
    var src := "a\nb";
    assert Run(src, Scan(3, Code, Some('b'), "a b")) == "a b";
    assert Step(src, Scan(2, Code, Some(' '), "a ")) == Scan(3, Code, Some('b'), "a b");
    assert Step(src, Scan(1, Code, Some('a'), "a")) == Scan(2, Code, Some(' '), "a ");
    assert Step(src, Scan(0, Code, None, "")) == Scan(1, Code, Some('a'), "a");
  }

  /** In a template, a step that the scanner takes from `s` to `t`. */
  lemma TemplateStep(src: string, s: Scan, t: Scan)
    requires s.mode.Template? && s.pos < |src| && Step(src, s) == t
    ensures Run(src, s) == Run(src, t)
  {
  }

  /** A template with a nested template in its `${}` is copied as it stands. */
  lemma NestedTemplate(src: string)
    requires src == "`a${`b`}c`"
    ensures Run(src, Initial()) == "`a${`b`}c`"
  {
    assert Step(src, Initial()) == Scan(1, Template(0, false), Some('`'), "`");
    TemplateStep(src, Scan(1, Template(0, false), Some('`'), "`"), Scan(2, Template(0, false), Some('a'), "`a"));
    NestedTemplateFrom2(src);
  }

  lemma NestedTemplateFrom2(src: string)
    requires src == "`a${`b`}c`"
    ensures Run(src, Scan(2, Template(0, false), Some('a'), "`a")) == "`a${`b`}c`"
  {
    TemplateStep(src, Scan(2, Template(0, false), Some('a'), "`a"), Scan(4, Template(1, false), Some('$'), "`a${"));
    TemplateStep(src, Scan(4, Template(1, false), Some('$'), "`a${"), Scan(5, Template(1, false), Some('`'), "`a${`"));
    NestedTemplateFrom5(src);
  }

  lemma NestedTemplateFrom5(src: string)
    requires src == "`a${`b`}c`"
    ensures Run(src, Scan(5, Template(1, false), Some('`'), "`a${`")) == "`a${`b`}c`"
  {
    TemplateStep(src, Scan(5, Template(1, false), Some('`'), "`a${`"), Scan(6, Template(1, false), Some('b'), "`a${`b"));
    TemplateStep(src, Scan(6, Template(1, false), Some('b'), "`a${`b"), Scan(7, Template(1, false), Some('`'), "`a${`b`"));
    NestedTemplateFrom7(src);
  }

  lemma NestedTemplateFrom7(src: string)
    requires src == "`a${`b`}c`"
    ensures Run(src, Scan(7, Template(1, false), Some('`'), "`a${`b`")) == "`a${`b`}c`"
  {
    TemplateStep(src, Scan(7, Template(1, false), Some('`'), "`a${`b`"), Scan(8, Template(0, false), Some('}'), "`a${`b`}"));
    TemplateStep(src, Scan(8, Template(0, false), Some('}'), "`a${`b`}"), Scan(9, Template(0, false), Some('c'), "`a${`b`}c"));
    TemplateStep(src, Scan(9, Template(0, false), Some('c'), "`a${`b`}c"), Scan(10, Code, Some('`'), "`a${`b`}c`"));
  }

  /** The post-pass leaves a lone newline between two words alone. */
  lemma PostPassKeepsNewline(asWritten: bool)
    ensures PostPass.JsPostPass("a\nb", asWritten) == "a\nb"
  {
    var s := "a\nb";
    PostPass.JsPostPassFixed(s, asWritten);
  }

  /** The post-pass leaves a lone space between two words alone. */
  lemma PostPassKeepsSpace(asWritten: bool)
    ensures PostPass.JsPostPass("a b", asWritten) == "a b"
  {
    var s := "a b";
    PostPass.JsPostPassFixed(s, asWritten);
  }

  /** Minifying is not idempotent: a line comment leaves its newline behind, and a second
      pass turns that newline between two words into a space. */
  lemma MinifyJsNotIdempotent(asWritten: bool)
    ensures var once := PostPass.JsPostPass(Run("a //c\n b", Initial()), asWritten);
      once == "a\nb" && PostPass.JsPostPass(Run(once, Initial()), asWritten) == "a b"
  {
    LineCommentKeepsNewline();
    PostPassKeepsNewline(asWritten);
    NewlineBetweenWords();
    PostPassKeepsSpace(asWritten);
  }

  // ---------------------------------------------------------------- the flags

  /** The context the program's flags encode, tested in the order its loop tests them. */
  function ModeOf(inStr: Option<char>, inTplExpr: nat, inRegex: bool, inLine: bool,
                  inBlock: bool, escape: bool): Mode
  {
    if inLine then LineComment
    else if inBlock then BlockComment
    else if inStr == Some('`') then Template(inTplExpr, escape)
    else if inStr.Some? then Quoted(inStr.value, escape)
    else if inRegex then Regex(escape)
    else Code
  }

  /** At most one context is open, `inStr` holds a quote character, `inTpl` mirrors an open
      template, the `${` depth is zero outside templates, and outside literals the escape
      flag is clear. */
  predicate FlagsOk(inStr: Option<char>, inTpl: bool, inTplExpr: nat, inRegex: bool,
                    inLine: bool, inBlock: bool, escape: bool)
  {
    && !(inLine && inBlock)
    && (inStr.Some? ==> inStr.value in "\"'`" && !inRegex && !inLine && !inBlock)
    && (inRegex ==> !inLine && !inBlock)
    && inTpl == (inStr == Some('`'))
    && (inStr != Some('`') ==> inTplExpr == 0)
    && (inStr.None? && !inRegex ==> !escape)
  }

  /** The turn of the loop inside a string or template literal delimited by `q`: the
      character is emitted, a `${` opens an expression, and an unescaped delimiter closes
      the literal. */
  method InString(src: string, i0: nat, q: char, inTpl0: bool, inTplExpr0: nat, escape0: bool,
                  lastOut0: Option<char>, out0: string)
    returns (i: nat, inStr: Option<char>, inTpl: bool, inTplExpr: nat, escape: bool,
             lastOut: Option<char>, out: string)
    requires i0 < |src| && q in "\"'`" && inTpl0 == (q == '`') && (q != '`' ==> inTplExpr0 == 0)
    ensures FlagsOk(inStr, inTpl, inTplExpr, false, false, false, escape)
    ensures Step(src, Scan(i0, ModeOf(Some(q), inTplExpr0, false, false, false, escape0), lastOut0, out0))
      == Scan(i, ModeOf(inStr, inTplExpr, false, false, false, escape), lastOut, out)
  {
    i, inStr, inTpl, inTplExpr, escape, lastOut, out := i0, Some(q), inTpl0, inTplExpr0, escape0, lastOut0, out0;
    var c := src[i];
    out := out + [c];
    if !escape {
      if inStr == Some('"') && c == '"' {
        inStr := None;
      } else if inStr == Some('\'') && c == '\'' {
        inStr := None;
      } else if inStr == Some('`') && c == '`' && inTplExpr == 0 {
        inStr := None;
        inTpl := false;
      } else if inStr == Some('`') && c == '$' && CharAt(src, i + 1) == Some('{') {
        inTplExpr := inTplExpr + 1;
        out := out + ['{'];
        i := i + 1;
      } else if inStr == Some('`') && c == '}' && inTplExpr > 0 {
        inTplExpr := inTplExpr - 1;
      }
    }
    escape := !escape && c == '\\';
    lastOut := Some(c);
    i := i + 1;
  }

  /** The turn of the loop outside every literal and comment: a comment or a literal may
      open, whitespace is dropped or kept as one space, and any other character is
      emitted. */
  method InCode(src: string, i0: nat, lastOut0: Option<char>, out0: string)
    returns (i: nat, inStr: Option<char>, inTpl: bool, inTplExpr: nat, inRegex: bool,
             inLine: bool, inBlock: bool, escape: bool, lastOut: Option<char>, out: string)
    requires i0 < |src|
    ensures FlagsOk(inStr, inTpl, inTplExpr, inRegex, inLine, inBlock, escape)
    ensures Step(src, Scan(i0, Code, lastOut0, out0))
      == Scan(i, ModeOf(inStr, inTplExpr, inRegex, inLine, inBlock, escape), lastOut, out)
  {
    i, lastOut, out := i0, lastOut0, out0;
    inStr, inTpl, inTplExpr, inRegex, inLine, inBlock, escape := None, false, 0, false, false, false, false;
    var c := src[i];
    if c == '/' && CharAt(src, i + 1) == Some('/') {
      inLine := true;
      i := i + 2;
    } else if c == '/' && CharAt(src, i + 1) == Some('*') {
      inBlock := true;
      i := i + 2;
    } else if c == '"' || c == '\'' {
      inStr := Some(c);
      out := out + [c];
      lastOut := Some(c);
      i := i + 1;
    } else if c == '`' {
      inStr := Some('`');
      inTpl := true;
      out := out + [c];
      lastOut := Some(c);
      i := i + 1;
    } else if c == '/' && CanStartRegexAfter(lastOut) {
      inRegex := true;
      out := out + [c];
      lastOut := Some(c);
      i := i + 1;
    } else if IsScanSpace(c) {
      var j := SkipSpaces(src, i + 1);
      var next := CharAt(src, j);
      var prev := lastOut;
      if prev.Some? && next.Some? {
        if NeedSpaceBetween(prev.value, next.value) {
          out := out + [' '];
          lastOut := Some(' ');
        }
      }
      i := j;
    } else {
      // Punctuation and every other character are emitted alike.
      out := out + [c];
      lastOut := Some(c);
      i := i + 1;
    }
  }

  /** `minifyJS(src)`: the scanner loop over the program's flags, then the post-pass, whose
      first replacement is taken as written or, without `asWritten`, as intended. */
  method MinifyJs(src: string, asWritten: bool) returns (r: string)
    ensures r == PostPass.JsPostPass(Run(src, Initial()), asWritten)
    ensures |r| <= |src|
    ensures PostPass.NoPair(r, PostPass.WsThenPunct) && PostPass.NoPair(r, PostPass.PunctThenWs)
    ensures PostPass.NoPair(r, PostPass.NewlineThenNewline)
    ensures r == [] || (!IsWs(r[0]) && !IsWs(r[|r| - 1]))
  {
    var out: string := [];
    var i: nat := 0;
    var n := |src|;

    var inStr: Option<char> := None;
    var inTpl := false;
    var inTplExpr: nat := 0;
    var inRegex := false;
    var inLine := false;
    var inBlock := false;
    var escape := false;
    var lastOut: Option<char> := None;

    while i < n
      invariant i <= n
      invariant FlagsOk(inStr, inTpl, inTplExpr, inRegex, inLine, inBlock, escape)
      invariant Run(src, Scan(i, ModeOf(inStr, inTplExpr, inRegex, inLine, inBlock, escape), lastOut, out))
             == Run(src, Initial())
      decreases n - i
    {
      ghost var before := Scan(i, ModeOf(inStr, inTplExpr, inRegex, inLine, inBlock, escape), lastOut, out);
      var c := src[i];
      if inLine {
        if c == '\n' {
          inLine := false;
          out := out + ['\n'];
          lastOut := Some('\n');
        }
        i := i + 1;
      } else if inBlock {
        if c == '*' && CharAt(src, i + 1) == Some('/') {
          inBlock := false;
          i := i + 2;
        } else {
          i := i + 1;
        }
      } else if inStr.Some? {
        i, inStr, inTpl, inTplExpr, escape, lastOut, out :=
          InString(src, i, inStr.value, inTpl, inTplExpr, escape, lastOut, out);
      } else if inRegex {
        out := out + [c];
        if !escape && c == '/' {
          inRegex := false;
        }
        escape := !escape && c == '\\';
        lastOut := Some(c);
        i := i + 1;
      } else {
        i, inStr, inTpl, inTplExpr, inRegex, inLine, inBlock, escape, lastOut, out :=
          InCode(src, i, lastOut, out);
      }
      assert Step(src, before) == Scan(i, ModeOf(inStr, inTplExpr, inRegex, inLine, inBlock, escape), lastOut, out);
    }
    r := PostPass.JsPostPass(out, asWritten);
  }
}
