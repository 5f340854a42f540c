/** `minifyCSS` of is-minify/minify.js: a one-pass scanner that drops block comments outside
    strings, copies strings as they stand, collapses whitespace to one space only between two
    word characters, and glues structural punctuation to its neighbours; then the textual
    post-pass.

    As for the JavaScript scanner, the method keeps the program's flags and is proved against
    `CssStep`, a function on an abstract state, iterated to the end of the input by `CssRun`. */
module CssMinifier {
  import opened Builtins
  import opened Lexing
  import PostPass

  /** The lexical context: outside strings and comments, inside a string (with its quote and
      escape flag), or inside a block comment. */
  datatype CssMode =
    | Plain
    | InString(quote: char, escaped: bool)
    | InComment

  /** Where the scan is, in which context, and the output buffer so far. */
  datatype CssScan = CssScan(pos: nat, mode: CssMode, out: string)

  function CssInitial(): CssScan {
    CssScan(0, Plain, [])
  }

  /** The `tight` set: characters that never need a space on either side. */
  predicate IsTight(c: char) {
    c == ':' || c == ';' || c == '{' || c == '}' || c == ',' || c == '>' || c == '+' || c == '~'
    || c == '(' || c == ')' || c == '='
  }

  /** `[A-Za-z0-9_*#.%-]`: characters between which a collapsed whitespace run stays a space. */
  predicate IsCssWordChar(c: char) {
    IsAlnum(c) || c == '_' || c == '*' || c == '#' || c == '.' || c == '%' || c == '-'
  }

  /** The last character of the buffer, or none when it is empty. */
  function LastOf(out: string): Option<char> {
    if out == [] then None else Some(out[|out| - 1])
  }

  /** The buffer with one trailing space removed, if it ends with one. */
  function DropTrailingSpace(out: string): (r: string)
    ensures LastOf(out) == Some(' ') ==> r + [' '] == out
    ensures LastOf(out) != Some(' ') ==> r == out
  {
    if LastOf(out) == Some(' ') then out[..|out| - 1] else out
  }

  /** One turn of the scanner's loop. */
  function CssStep(src: string, s: CssScan): (t: CssScan)
    requires s.pos < |src|
    ensures s.pos < t.pos <= |src|
    ensures |t.out| <= |s.out| + (t.pos - s.pos)
  {
    var c := src[s.pos];
    var next := CharAt(src, s.pos + 1);
    match s.mode
    case InComment =>
      if c == '*' && next == Some('/') then CssScan(s.pos + 2, Plain, s.out)
      else s.(pos := s.pos + 1)
    case InString(q, esc) =>
      var mode := if !esc && c == q then Plain else InString(q, !esc && c == '\\');
      CssScan(s.pos + 1, mode, s.out + [c])
    case Plain =>
      if c == '/' && next == Some('*') then CssScan(s.pos + 2, InComment, s.out)
      else if c == '"' || c == '\'' then CssScan(s.pos + 1, InString(c, false), s.out + [c])
      else if IsScanSpace(c) then
        var j := SpanEnd(src, s.pos + 1, IsScanSpace);
        var a := LastOf(s.out);
        if a.Some? && IsCssWordChar(a.value) && j < |src| && IsCssWordChar(src[j]) then
          CssScan(j, Plain, s.out + [' '])
        else
          s.(pos := j)
      else if IsTight(c) then CssScan(s.pos + 1, Plain, DropTrailingSpace(s.out) + [c])
      else CssScan(s.pos + 1, Plain, s.out + [c])
  }

  /** The scanner's buffer from state `s` to the end of the input; it never grows by more
      characters than are read. */
  function CssRun(src: string, s: CssScan): (r: string)
    requires s.pos <= |src|
    ensures |r| <= |s.out| + (|src| - s.pos)
    decreases |src| - s.pos
  {
    if s.pos == |src| then s.out else CssRun(src, CssStep(src, s))
  }

  // ---------------------------------------------------------------- strings

  /** One step inside a string: the character is copied, and the escape flag becomes the
      parity of the backslash run, unless the character closes the string. */
  lemma StringStep(src: string, start: nat, s: CssScan, q: char)
    requires start <= s.pos < |src|
    requires s.mode == InString(q, EscapedAt(src, start, s.pos))
    ensures CssStep(src, s) == CssScan(s.pos + 1,
      if ClosesAt(src, start, s.pos, q) then Plain else InString(q, EscapedAt(src, start, s.pos + 1)),
      s.out + [src[s.pos]])
  {
    EscapeFlagIsParity(src, start, s.pos);
  }

  /** A string whose body starts at `start` is copied up to and including its first quote not
      preceded by an odd number of backslashes. */
  lemma {:induction false} StringCloses(src: string, start: nat, s: CssScan, q: char)
    requires start <= s.pos <= |src|
    requires s.mode == InString(q, EscapedAt(src, start, s.pos))
    requires FirstClose(src, start, s.pos, q) < |src|
    ensures var k := FirstClose(src, start, s.pos, q);
      CssRun(src, s) == CssRun(src, CssScan(k + 1, Plain, s.out + src[s.pos..k + 1]))
    decreases |src| - s.pos
  {
    var c := src[s.pos];
    StringStep(src, start, s, q);
    var u := CssStep(src, s);
    var k := FirstClose(src, start, s.pos, q);
    if ClosesAt(src, start, s.pos, q) {
      assert [c] == src[s.pos..s.pos + 1];
    } else {
      assert k == FirstClose(src, start, s.pos + 1, q);
      StringCloses(src, start, u, q);
      assert s.out + [c] + src[s.pos + 1..k + 1] == s.out + src[s.pos..k + 1];
    }
  }

  /** A string without a closing quote runs to the end of the input, copied as it stands. */
  lemma {:induction false} StringUnclosed(src: string, start: nat, s: CssScan, q: char)
    requires start <= s.pos <= |src|
    requires s.mode == InString(q, EscapedAt(src, start, s.pos))
    requires FirstClose(src, start, s.pos, q) == |src|
    ensures CssRun(src, s) == s.out + src[s.pos..]
    decreases |src| - s.pos
  {
    if s.pos < |src| {
      var c := src[s.pos];
      StringStep(src, start, s, q);
      assert !ClosesAt(src, start, s.pos, q);
      assert FirstClose(src, start, s.pos + 1, q) == |src|;
      StringUnclosed(src, start, CssStep(src, s), q);
      assert s.out + [c] + src[s.pos + 1..] == s.out + src[s.pos..];
    }
  }

  /** A quote outside strings and comments opens a string, which is copied as it stands up
      to and including the first quote of its kind that no odd run of backslashes escapes;
      an unclosed string runs to the end of the input. */
  lemma StringLiteral(src: string, s: CssScan)
    requires s.mode == Plain && s.pos < |src| && (src[s.pos] == '"' || src[s.pos] == '\'')
    ensures var q := src[s.pos]; var k := FirstClose(src, s.pos + 1, s.pos + 1, q);
      if k < |src| then CssRun(src, s) == CssRun(src, CssScan(k + 1, Plain, s.out + src[s.pos..k + 1]))
      else CssRun(src, s) == s.out + src[s.pos..]
  {
    if FirstClose(src, s.pos + 1, s.pos + 1, src[s.pos]) < |src| {
      StringLiteralCloses(src, s);
    } else {
      StringLiteralUnclosed(src, s);
    }
  }

  lemma StringLiteralCloses(src: string, s: CssScan)
    requires s.mode == Plain && s.pos < |src| && (src[s.pos] == '"' || src[s.pos] == '\'')
    requires FirstClose(src, s.pos + 1, s.pos + 1, src[s.pos]) < |src|
    ensures var k := FirstClose(src, s.pos + 1, s.pos + 1, src[s.pos]);
      CssRun(src, s) == CssRun(src, CssScan(k + 1, Plain, s.out + src[s.pos..k + 1]))
  {
    var q := src[s.pos];
    var u := CssScan(s.pos + 1, InString(q, false), s.out + [q]);
    OpenQuoteStep(src, s);
    assert CssRun(src, s) == CssRun(src, u);
    assert u.mode == InString(q, EscapedAt(src, s.pos + 1, s.pos + 1));
    var k := FirstClose(src, s.pos + 1, s.pos + 1, q);
    StringCloses(src, s.pos + 1, u, q);
    CharThenSlice(s.out, src, s.pos, k + 1);
  }

  lemma StringLiteralUnclosed(src: string, s: CssScan)
    requires s.mode == Plain && s.pos < |src| && (src[s.pos] == '"' || src[s.pos] == '\'')
    requires FirstClose(src, s.pos + 1, s.pos + 1, src[s.pos]) == |src|
    ensures CssRun(src, s) == s.out + src[s.pos..]
  {
    var q := src[s.pos];
    var u := CssScan(s.pos + 1, InString(q, false), s.out + [q]);
    OpenQuoteStep(src, s);
    assert CssRun(src, s) == CssRun(src, u);
    assert u.mode == InString(q, EscapedAt(src, s.pos + 1, s.pos + 1));
    StringUnclosed(src, s.pos + 1, u, q);
    CharThenSlice(s.out, src, s.pos, |src|);
    assert src[s.pos..|src|] == src[s.pos..] && src[u.pos..|src|] == src[u.pos..];
  }

  lemma OpenQuoteStep(src: string, s: CssScan)
    requires s.mode == Plain && s.pos < |src| && (src[s.pos] == '"' || src[s.pos] == '\'')
    ensures CssStep(src, s) == CssScan(s.pos + 1, InString(src[s.pos], false), s.out + [src[s.pos]])
  {
  }

  // ---------------------------------------------------------------- comments

  lemma {:induction false} InBlockComment(src: string, s: CssScan)
    requires s.pos <= |src| && s.mode == InComment
    ensures var k := FirstCommentEnd(src, s.pos);
      if k < |src| then CssRun(src, s) == CssRun(src, CssScan(k + 2, Plain, s.out))
      else CssRun(src, s) == s.out
    decreases |src| - s.pos
  {
    if s.pos < |src| && !CommentEndAt(src, s.pos) {
      InBlockComment(src, CssStep(src, s));
    }
  }

  /** A block comment outside strings is dropped with its markers and nothing is emitted for
      it; an unclosed one drops the rest of the input. */
  lemma BlockCommentDropped(src: string, s: CssScan)
    requires s.mode == Plain && s.pos + 1 < |src| && src[s.pos] == '/' && src[s.pos + 1] == '*'
    ensures var k := FirstCommentEnd(src, s.pos + 2);
      if k < |src| then CssRun(src, s) == CssRun(src, CssScan(k + 2, Plain, s.out))
      else CssRun(src, s) == s.out
  {
    InBlockComment(src, CssStep(src, s));
  }

  // ---------------------------------------------------------------- whitespace

  /** A whitespace run outside strings and comments, ending before position `j`, becomes one
      space iff the buffer ends with a word character and a word character follows the run;
      otherwise it is dropped. */
  lemma WhitespaceRun(src: string, s: CssScan, j: nat)
    requires s.mode == Plain && s.pos < j <= |src|
    requires forall k :: s.pos <= k < j ==> IsScanSpace(src[k])
    requires j == |src| || !IsScanSpace(src[j])
    ensures var a := LastOf(s.out);
      var sp := a.Some? && IsCssWordChar(a.value) && j < |src| && IsCssWordChar(src[j]);
      CssRun(src, s) == CssRun(src, CssScan(j, Plain, if sp then s.out + [' '] else s.out))
  {
    SpanEndUnique(src, s.pos + 1, IsScanSpace, j);
  }

  // ---------------------------------------------------------------- the tight rule

  /** What holds of every state the scanner reaches: a string's quote is a quote character,
      and when the buffer ends with a space outside strings, the scanner stands on a word
      character (the one that space was kept for). */
  predicate Settled(src: string, s: CssScan)
    requires s.pos <= |src|
  {
    && (s.mode.InString? ==> s.mode.quote == '"' || s.mode.quote == '\'')
    && (LastOf(s.out) == Some(' ') ==>
          match s.mode
          case Plain => s.pos < |src| && IsCssWordChar(src[s.pos])
          case InComment => false
          case InString(_, _) => true)
  }

  lemma InitialSettled(src: string)
    ensures Settled(src, CssInitial())
  {
  }

  /** Every step keeps the scanner settled. */
  lemma StepSettled(src: string, s: CssScan)
    requires s.pos < |src| && Settled(src, s)
    ensures Settled(src, CssStep(src, s))
  {
  }

  /** The tight rule's removal of a pending space never fires in a settled state: a tight
      character is simply appended, so the space it would remove was never emitted. */
  lemma TightAppends(src: string, s: CssScan)
    requires s.mode == Plain && s.pos < |src| && Settled(src, s) && IsTight(src[s.pos])
    ensures CssStep(src, s) == CssScan(s.pos + 1, Plain, s.out + [src[s.pos]])
  {
  }

  // ---------------------------------------------------------------- examples

  /** A word character outside strings and comments is copied. */
  lemma CopyStep(src: string, s: CssScan, out: string)
    requires s.mode == Plain && s.pos < |src| && IsCssWordChar(src[s.pos])
    requires out == s.out + [src[s.pos]]
    ensures CssRun(src, s) == CssRun(src, CssScan(s.pos + 1, Plain, out))
  {
  }

  /** A tight character after anything but a space is appended. */
  lemma TightStep(src: string, s: CssScan, out: string)
    requires s.mode == Plain && s.pos < |src| && IsTight(src[s.pos]) && LastOf(s.out) != Some(' ')
    requires out == s.out + [src[s.pos]]
    ensures CssRun(src, s) == CssRun(src, CssScan(s.pos + 1, Plain, out))
  {
  }

  /** A single space becomes a space between two word characters and nothing otherwise. */
  lemma SpaceStep(src: string, s: CssScan, out: string)
    requires s.mode == Plain && s.pos + 1 < |src| && src[s.pos] == ' ' && !IsScanSpace(src[s.pos + 1])
    requires var a := LastOf(s.out);
      out == if a.Some? && IsCssWordChar(a.value) && IsCssWordChar(src[s.pos + 1]) then s.out + [' '] else s.out
    ensures CssRun(src, s) == CssRun(src, CssScan(s.pos + 1, Plain, out))
  {
    assert SpanEnd(src, s.pos + 1, IsScanSpace) == s.pos + 1;
  }

  /** A quote outside strings and comments opens a string and is copied. */
  lemma OpenStep(src: string, s: CssScan, out: string)
    requires s.mode == Plain && s.pos < |src| && src[s.pos] == '\''
    requires out == s.out + [src[s.pos]]
    ensures CssRun(src, s) == CssRun(src, CssScan(s.pos + 1, InString('\'', false), out))
  {
  }

  /** Inside a string with no pending escape, a character other than the quote and the
      backslash is copied, and the quote is copied and closes the string. */
  lemma StringCharStep(src: string, s: CssScan, out: string)
    requires s.mode == InString('\'', false) && s.pos < |src| && src[s.pos] != '\\'
    requires out == s.out + [src[s.pos]]
    ensures CssRun(src, s)
      == CssRun(src, CssScan(s.pos + 1, if src[s.pos] == '\'' then Plain else InString('\'', false), out))
  {
  }

  lemma DescendantSelectorFrom4(src: string)
    requires src == "a .b > c"
    ensures CssRun(src, CssScan(4, Plain, "a .b")) == "a .b>c"
  {
    SpaceStep(src, CssScan(4, Plain, "a .b"), "a .b");
    TightStep(src, CssScan(5, Plain, "a .b"), "a .b>");
    SpaceStep(src, CssScan(6, Plain, "a .b>"), "a .b>");
    CopyStep(src, CssScan(7, Plain, "a .b>"), "a .b>c");
  }

  lemma DescendantSelectorFrom2(src: string)
    requires src == "a .b > c"
    ensures CssRun(src, CssScan(2, Plain, "a ")) == "a .b>c"
  {
    CopyStep(src, CssScan(2, Plain, "a "), "a .");
    CopyStep(src, CssScan(3, Plain, "a ."), "a .b");
    DescendantSelectorFrom4(src);
  }

  /** A space between two word characters is kept; one before or after a tight character is not. */
  lemma DescendantSelector(src: string)
    requires src == "a .b > c"
    ensures CssRun(src, CssInitial()) == "a .b>c"
  {
    CopyStep(src, CssScan(0, Plain, ""), "a");
    SpaceStep(src, CssScan(1, Plain, "a"), "a ");
    DescendantSelectorFrom2(src);
  }

  lemma DeclarationFrom5(src: string)
    requires src == "a : b ; }"
    ensures CssRun(src, CssScan(5, Plain, "a:b")) == "a:b;}"
  {
    SpaceStep(src, CssScan(5, Plain, "a:b"), "a:b");
    TightStep(src, CssScan(6, Plain, "a:b"), "a:b;");
    SpaceStep(src, CssScan(7, Plain, "a:b;"), "a:b;");
    TightStep(src, CssScan(8, Plain, "a:b;"), "a:b;}");
  }

  lemma DeclarationFrom2(src: string)
    requires src == "a : b ; }"
    ensures CssRun(src, CssScan(2, Plain, "a")) == "a:b;}"
  {
    TightStep(src, CssScan(2, Plain, "a"), "a:");
    SpaceStep(src, CssScan(3, Plain, "a:"), "a:");
    CopyStep(src, CssScan(4, Plain, "a:"), "a:b");
    DeclarationFrom5(src);
  }

  /** Structural spaces go, and the buffer keeps the semicolon before the brace. */
  lemma Declaration(src: string)
    requires src == "a : b ; }"
    ensures CssRun(src, CssInitial()) == "a:b;}"
  {
    CopyStep(src, CssScan(0, Plain, ""), "a");
    SpaceStep(src, CssScan(1, Plain, "a"), "a");
    DeclarationFrom2(src);
  }

  lemma DeclarationDropsSemicolon(r: string)
    requires r == "a:b;}"
    ensures PostPass.DropSemicolonsBeforeBrace(r) == "a:b}"
  {
    var t := r[3..];
    assert r == r[..3] + t && r[..3] == "a:b" && t == ";}";
    PostPass.DropSemicolonsCopies(r[..3], t);
    assert SpanEnd(t, 0, PostPass.IsSemicolon) == 1 && SpanEnd(t, 1, IsWs) == 1;
    assert t[2..] == [];
  }

  /** The post-pass drops the semicolon before the closing brace. */
  lemma DeclarationPostPass(s: string)
    requires s == "a:b;}"
    ensures PostPass.CssPostPass(s) == "a:b}"
  {
    DeclarationDropsSemicolon(s);
    PostPass.CssPostPassIsSemicolonPass(s);
  }

  /** The whole minifier on a declaration block's tail: `a : b ; }` becomes `a:b}`. */
  lemma MinifyCssDeclaration()
    ensures PostPass.CssPostPass(CssRun("a : b ; }", CssInitial())) == "a:b}"
  {
    Declaration("a : b ; }");
    DeclarationPostPass("a:b;}");
  }

  lemma StringOnceFrom3(src: string)
    requires src == "'; ;}'"
    ensures CssRun(src, CssScan(3, InString('\'', false), "'; ")) == "'; ;}'"
  {
    StringCharStep(src, CssScan(3, InString('\'', false), "'; "), "'; ;");
    StringCharStep(src, CssScan(4, InString('\'', false), "'; ;"), "'; ;}");
    StringCharStep(src, CssScan(5, InString('\'', false), "'; ;}"), "'; ;}'");
  }

  /** A string is copied as it stands. */
  lemma StringOnce(src: string)
    requires src == "'; ;}'"
    ensures CssRun(src, CssInitial()) == "'; ;}'"
  {
    OpenStep(src, CssScan(0, Plain, ""), "'");
    StringCharStep(src, CssScan(1, InString('\'', false), "'"), "';");
    StringCharStep(src, CssScan(2, InString('\'', false), "';"), "'; ");
    StringOnceFrom3(src);
  }

  lemma StringTwiceFrom2(src: string)
    requires src == "'; }'"
    ensures CssRun(src, CssScan(2, InString('\'', false), "';")) == "'; }'"
  {
    StringCharStep(src, CssScan(2, InString('\'', false), "';"), "'; ");
    StringCharStep(src, CssScan(3, InString('\'', false), "'; "), "'; }");
    StringCharStep(src, CssScan(4, InString('\'', false), "'; }"), "'; }'");
  }

  /** A string is copied as it stands. */
  lemma StringTwice(src: string)
    requires src == "'; }'"
    ensures CssRun(src, CssInitial()) == "'; }'"
  {
    OpenStep(src, CssScan(0, Plain, ""), "'");
    StringCharStep(src, CssScan(1, InString('\'', false), "'"), "';");
    StringTwiceFrom2(src);
  }

  lemma StringTailDropsSemicolon(u: string)
    requires u == " ;}'"
    ensures PostPass.DropSemicolonsBeforeBrace(u) == " }'"
  {
    var t := u[1..];
    assert u == u[..1] + t && u[..1] == " " && t == ";}'";
    PostPass.DropSemicolonsCopies(u[..1], t);
    assert SpanEnd(t, 0, PostPass.IsSemicolon) == 1 && SpanEnd(t, 1, IsWs) == 1;
    assert t[2..] == "'" && t[2..][1..] == [];
    PostPass.DropSemicolonsCopiesOne(t[2..]);
  }

  lemma StringBodyKeepsSemicolon(t: string)
    requires t == "; ;}'"
    ensures PostPass.DropSemicolonsBeforeBrace(t) == "; }'"
  {
    assert SpanEnd(t, 0, PostPass.IsSemicolon) == 1 && SpanEnd(t, 1, IsWs) == 2;
    assert t[1..] == " ;}'";
    StringTailDropsSemicolon(t[1..]);
  }

  lemma StringDropsSemicolon(s: string)
    requires s == "'; ;}'"
    ensures PostPass.DropSemicolonsBeforeBrace(s) == "'; }'"
  {
    assert s[1..] == "; ;}'";
    StringBodyKeepsSemicolon(s[1..]);
    PostPass.DropSemicolonsCopiesOne(s);
  }

  /** The post-pass rewrites `; ;}` inside a string to `; }`. */
  lemma StringPostPassOnce(s: string)
    requires s == "'; ;}'"
    ensures PostPass.CssPostPass(s) == "'; }'"
  {
    StringDropsSemicolon(s);
    PostPass.CssPostPassIsSemicolonPass(s);
  }

  /** A second post-pass rewrites the rewritten string again. */
  lemma StringPostPassTwice(s: string)
    requires s == "'; }'"
    ensures PostPass.CssPostPass(s) == "'}'"
  {
    var t := s[1..];
    assert t == "; }'";
    assert SpanEnd(t, 0, PostPass.IsSemicolon) == 1 && SpanEnd(t, 1, IsWs) == 2;
    assert t[3..] == "'" && t[3..][1..] == [];
    PostPass.DropSemicolonsCopiesOne(t[3..]);
    PostPass.DropSemicolonsCopiesOne(s);
    PostPass.CssPostPassIsSemicolonPass(s);
  }

  /** Minifying is not idempotent, and it changes the inside of strings: the post-pass
      rewrites `; ;}` inside a string to `; }`, and a second run rewrites that to `}`. */
  lemma MinifyCssNotIdempotent()
    ensures var once := PostPass.CssPostPass(CssRun("'; ;}'", CssInitial()));
      once == "'; }'" && PostPass.CssPostPass(CssRun(once, CssInitial())) == "'}'"
  {
    StringOnce("'; ;}'");
    StringPostPassOnce("'; ;}'");
    StringTwice("'; }'");
    StringPostPassTwice("'; }'");
  }

  // ---------------------------------------------------------------- the flags

  /** The context the program's flags encode, tested in the order its loop tests them. */
  function CssModeOf(inStr: Option<char>, inBlock: bool, escape: bool): CssMode {
    if inBlock then InComment
    else if inStr.Some? then InString(inStr.value, escape)
    else Plain
  }

  /** At most one context is open, `inStr` holds a quote character, and outside strings the
      escape flag is clear. */
  predicate CssFlagsOk(inStr: Option<char>, inBlock: bool, escape: bool) {
    && !(inBlock && inStr.Some?)
    && (inStr.Some? ==> inStr.value == '"' || inStr.value == '\'')
    && (inStr.None? ==> !escape)
  }

  /** `minifyCSS(src)`: the scanner loop over the program's flags, then the post-pass. */
  method MinifyCss(src: string) returns (r: string)
    ensures r == PostPass.CssPostPass(CssRun(src, CssInitial()))
    ensures |r| <= |src|
    ensures PostPass.NoPair(r, PostPass.SemicolonThenBrace)
    ensures PostPass.NoWsBefore(r, PostPass.Important)
    ensures PostPass.NoPair(r, PostPass.NewlineThenNewline)
    ensures r == [] || (!IsWs(r[0]) && !IsWs(r[|r| - 1]))
  {
    var out: string := [];
    var i: nat := 0;
    var n := |src|;

    var inStr: Option<char> := None;
    var escape := false;
    var inBlock := false;

    while i < n
      invariant i <= n
      invariant CssFlagsOk(inStr, inBlock, escape)
      invariant CssRun(src, CssScan(i, CssModeOf(inStr, inBlock, escape), out)) == CssRun(src, CssInitial())
      decreases n - i
    {
      ghost var before := CssScan(i, CssModeOf(inStr, inBlock, escape), out);
      var c := src[i];
      if inBlock {
        if c == '*' && CharAt(src, i + 1) == Some('/') {
          inBlock := false;
          i := i + 2;
        } else {
          i := i + 1;
        }
      } else if inStr.None? && c == '/' && CharAt(src, i + 1) == Some('*') {
        inBlock := true;
        i := i + 2;
      } else if inStr.Some? {
        out := out + [c];
        if !escape && c == inStr.value {
          inStr := None;
        }
        escape := !escape && c == '\\';
        i := i + 1;
      } else if c == '"' || c == '\'' {
        inStr := Some(c);
        escape := false;
        out := out + [c];
        i := i + 1;
      } else if IsScanSpace(c) {
        var j := SkipSpaces(src, i + 1);
        var a := LastOf(out);
        var b := CharAt(src, j);
        if a.Some? && IsCssWordChar(a.value) && b.Some? && IsCssWordChar(b.value) {
          out := out + [' '];
        }
        i := j;
      } else if IsTight(c) {
        if |out| > 0 && out[|out| - 1] == ' ' {
          out := out[..|out| - 1];
        }
        out := out + [c];
        i := i + 1;
      } else {
        out := out + [c];
        i := i + 1;
      }
      assert CssStep(src, before) == CssScan(i, CssModeOf(inStr, inBlock, escape), out);
    }
    r := PostPass.CssPostPass(out);
  }
}
