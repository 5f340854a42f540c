/** The textual clean-up that ends both minifiers of is-minify/minify.js.
    Each `s.replace(/re/g, repl)` is written as a left-to-right scan with the meaning of a
    global replace: where the pattern matches at the current position, the replacement is
    emitted and the scan resumes after the match; otherwise one character is copied.
    The passes run over the whole text, string and regex literals included. */
module PostPass {
  import opened Builtins

  /** `[,;:{}()[\].]`, the punctuation class of the JavaScript post-pass. */
  predicate IsPunct(c: char) {
    c in ",;:{}()[]."
  }

  predicate IsNewline(c: char) { c == '\n' }
  predicate NotNewline(c: char) { c != '\n' }
  predicate IsSemicolon(c: char) { c == ';' }
  predicate NotSemicolonOrWs(c: char) { c != ';' && !IsWs(c) }

  lemma PunctIsNotWs(c: char)
    requires IsPunct(c)
    ensures !IsWs(c)
  {
  }

  // ---------------------------------------------------------------- adjacency

  /** The characters at `i - 1` and `i` form a pair that `bad` forbids. */
  predicate PairAt(s: string, i: int, bad: (char, char) -> bool) {
    0 < i < |s| && bad(s[i - 1], s[i])
  }

  /** No two neighbouring characters `a`, `b` of `s` satisfy `bad(a, b)`. */
  predicate NoPair(s: string, bad: (char, char) -> bool) {
    forall i :: 0 < i < |s| ==> !PairAt(s, i, bad)
  }

  predicate WsThenPunct(a: char, b: char) { IsWs(a) && IsPunct(b) }
  predicate PunctThenWs(a: char, b: char) { IsPunct(a) && IsWs(b) }
  predicate NewlineThenNewline(a: char, b: char) { a == '\n' && b == '\n' }
  predicate SemicolonThenBrace(a: char, b: char) { a == ';' && b == '}' }

  lemma NoPairConcat(a: string, b: string, bad: (char, char) -> bool)
    requires NoPair(a, bad) && NoPair(b, bad)
    requires a != [] && b != [] ==> !bad(a[|a| - 1], b[0])
    ensures NoPair(a + b, bad)
  {
    var s := a + b;
    forall i | 0 < i < |s|
      ensures !PairAt(s, i, bad)
    {
      if i < |a| {
        assert s[i - 1] == a[i - 1] && s[i] == a[i];
        assert !PairAt(a, i, bad);
      } else if i > |a| {
        assert s[i - 1] == b[i - 1 - |a|] && s[i] == b[i - |a|];
        assert !PairAt(b, i - |a|, bad);
      } else {
        assert s[i - 1] == a[|a| - 1] && s[i] == b[0];
      }
    }
  }

  lemma NoPairSlice(s: string, lo: nat, hi: nat, bad: (char, char) -> bool)
    requires lo <= hi <= |s| && NoPair(s, bad)
    ensures NoPair(s[lo..hi], bad)
    ensures hi == |s| ==> NoPair(s[lo..], bad)
  {
    assert hi == |s| ==> s[lo..hi] == s[lo..];
    var m := s[lo..hi];
    forall i | 0 < i < |m|
      ensures !PairAt(m, i, bad)
    {
      assert m[i - 1] == s[lo + i - 1] && m[i] == s[lo + i];
      assert !PairAt(s, lo + i, bad);
    }
  }

  /** `w` occurs at `i`, right after a whitespace character. */
  predicate WsBeforeAt(s: string, i: int, w: string) {
    0 < i < |s| && w <= s[i..] && IsWs(s[i - 1])
  }

  /** No occurrence of `w` in `s` is immediately preceded by whitespace. */
  predicate NoWsBefore(s: string, w: string) {
    forall i :: 0 < i < |s| ==> !WsBeforeAt(s, i, w)
  }

  lemma NoWsBeforeCons(c: char, t: string, w: string)
    requires NoWsBefore(t, w)
    requires w != [] && (w <= t ==> !IsWs(c))
    ensures NoWsBefore([c] + t, w)
  {
    var s := [c] + t;
    forall i | 0 < i < |s| && w <= s[i..]
      ensures !WsBeforeAt(s, i, w)
    {
      assert s[i..] == t[i - 1..];
      if i > 1 {
        assert s[i - 1] == t[i - 2];
        assert !WsBeforeAt(t, i - 1, w);
      }
    }
  }

  lemma NoWsBeforeSlice(s: string, lo: nat, hi: nat, w: string)
    requires lo <= hi <= |s| && NoWsBefore(s, w)
    ensures NoWsBefore(s[lo..hi], w)
    ensures hi == |s| ==> NoWsBefore(s[lo..], w)
  {
    assert hi == |s| ==> s[lo..hi] == s[lo..];
    var m := s[lo..hi];
    forall i | 0 < i < |m| && w <= m[i..]
      ensures !WsBeforeAt(m, i, w)
    {
      assert m[i..] <= s[lo + i..];
      assert m[i - 1] == s[lo + i - 1];
      assert !WsBeforeAt(s, lo + i, w);
    }
  }

  // ---------------------------------------------------------------- JavaScript passes

  /** `s.replace(/\s+([,;:{}()[\].])+/g, '$1')`: whitespace followed by a run of punctuation
      becomes the last character of that run. */
  function StripWsBeforePunct(s: string): (r: string)
    ensures |r| <= |s|
    decreases |s|
  {
    if s == [] then []
    else
      var j := SpanEnd(s, 0, IsWs);
      if 0 < j < |s| && IsPunct(s[j]) then
        var k := SpanEnd(s, j, IsPunct);
        [s[k - 1]] + StripWsBeforePunct(s[k..])
      else
        [s[0]] + StripWsBeforePunct(s[1..])
  }

  /** After the first pass no whitespace character stands right before punctuation. */
  lemma {:induction false} StripWsBeforePunctSeparates(s: string)
    ensures NoPair(StripWsBeforePunct(s), WsThenPunct)
    decreases |s|
  {
    if s != [] {
      var j := SpanEnd(s, 0, IsWs);
      if 0 < j < |s| && IsPunct(s[j]) {
        var k := SpanEnd(s, j, IsPunct);
        StripWsBeforePunctSeparates(s[k..]);
        PunctIsNotWs(s[k - 1]);
        NoPairConcat([s[k - 1]], StripWsBeforePunct(s[k..]), WsThenPunct);
      } else {
        StripWsBeforePunctSeparates(s[1..]);
        SeparatedPastChar(s);
      }
    }
  }

  /** Where no whitespace run before punctuation starts, the copied first character keeps
      the first pass's output separated. */
  lemma SeparatedPastChar(s: string)
    requires s != []
    requires var j := SpanEnd(s, 0, IsWs); !(0 < j < |s| && IsPunct(s[j]))
    requires NoPair(StripWsBeforePunct(s[1..]), WsThenPunct)
    ensures NoPair([s[0]] + StripWsBeforePunct(s[1..]), WsThenPunct)
  {
    var j := SpanEnd(s, 0, IsWs);
    var t := s[1..];
    var u := StripWsBeforePunct(t);
    if t != [] && IsWs(s[0]) {
      // The match failed at 0, so it fails at 1 too: the whitespace run ends at `j`.
      SpanEndShift(s, 1, IsWs);
      if IsWs(t[0]) {
        assert u == [t[0]] + StripWsBeforePunct(t[1..]);
        if IsPunct(t[0]) {
          PunctIsNotWs(t[0]);
        }
      } else {
        assert j == 1 && u[0] == t[0];
      }
    }
    NoPairConcat([s[0]], u, WsThenPunct);
  }

  /** The first pass as evidently intended, `s.replace(/\s+([,;:{}()[\].]+)/g, '$1')`: the
      whitespace before a run of punctuation is dropped and the whole run kept. */
  function StripWsBeforePunctIntended(s: string): (r: string)
    ensures |r| <= |s|
    decreases |s|
  {
    if s == [] then []
    else
      var j := SpanEnd(s, 0, IsWs);
      if 0 < j < |s| && IsPunct(s[j]) then
        var k := SpanEnd(s, j, IsPunct);
        s[j..k] + StripWsBeforePunctIntended(s[k..])
      else
        [s[0]] + StripWsBeforePunctIntended(s[1..])
  }

  /** The first pass as written, or as intended. */
  function StripWsBeforePunctWith(s: string, asWritten: bool): string {
    if asWritten then StripWsBeforePunct(s) else StripWsBeforePunctIntended(s)
  }

  /** A run of punctuation has no whitespace before punctuation inside it. */
  lemma PunctRunSeparates(s: string)
    requires forall i :: 0 <= i < |s| ==> IsPunct(s[i])
    ensures NoPair(s, WsThenPunct)
  {
    forall i | 0 < i < |s|
      ensures !PairAt(s, i, WsThenPunct)
    {
      PunctIsNotWs(s[i - 1]);
    }
  }

  /** The intended first pass also leaves no whitespace right before punctuation. */
  lemma {:induction false} StripWsBeforePunctIntendedSeparates(s: string)
    ensures NoPair(StripWsBeforePunctIntended(s), WsThenPunct)
    decreases |s|
  {
    if s != [] {
      var j := SpanEnd(s, 0, IsWs);
      if 0 < j < |s| && IsPunct(s[j]) {
        var k := SpanEnd(s, j, IsPunct);
        var run := s[j..k];
        StripWsBeforePunctIntendedSeparates(s[k..]);
        PunctRunSeparates(run);
        PunctIsNotWs(run[|run| - 1]);
        NoPairConcat(run, StripWsBeforePunctIntended(s[k..]), WsThenPunct);
      } else {
        var t := s[1..];
        var u := StripWsBeforePunctIntended(t);
        StripWsBeforePunctIntendedSeparates(t);
        if t != [] && IsWs(s[0]) {
          // The match failed at 0, so it fails at 1 too: the whitespace run ends at `j`.
          SpanEndShift(s, 1, IsWs);
          if IsWs(t[0]) {
            assert u == [t[0]] + StripWsBeforePunctIntended(t[1..]);
            if IsPunct(t[0]) {
              PunctIsNotWs(t[0]);
            }
          } else {
            assert j == 1 && u[0] == t[0];
          }
        }
        NoPairConcat([s[0]], u, WsThenPunct);
      }
    }
  }

  /** The intended first pass removes whitespace and nothing else. */
  lemma {:induction false} StripWsBeforePunctIntendedOnlyWs(s: string)
    ensures Filter(StripWsBeforePunctIntended(s), NotWs) == Filter(s, NotWs)
    decreases |s|
  {
    if s != [] {
      var j := SpanEnd(s, 0, IsWs);
      if 0 < j < |s| && IsPunct(s[j]) {
        var k := SpanEnd(s, j, IsPunct);
        StripWsBeforePunctIntendedOnlyWs(s[k..]);
        KeptPastRun(s, j, k, StripWsBeforePunctIntended(s[k..]));
      } else {
        StripWsBeforePunctIntendedOnlyWs(s[1..]);
        KeptPastChar(s, StripWsBeforePunctIntended(s[1..]));
      }
    }
  }

  /** Dropping a leading whitespace run and keeping the text from `j` keeps what `NotWs` keeps. */
  lemma KeptPastRun(s: string, j: nat, k: nat, u: string)
    requires j <= k <= |s|
    requires forall i :: 0 <= i < j ==> IsWs(s[i])
    requires Filter(u, NotWs) == Filter(s[k..], NotWs)
    ensures Filter(s[j..k] + u, NotWs) == Filter(s, NotWs)
  {
    FilterConcat(s[j..k], u, NotWs);
    FilterSkip(s, 0, j, NotWs);
    assert s[j..] == s[j..k] + s[k..];
    FilterConcat(s[j..k], s[k..], NotWs);
    assert s[0..] == s;
  }

  /** Copying the first character keeps what `NotWs` keeps. */
  lemma KeptPastChar(s: string, u: string)
    requires s != []
    requires Filter(u, NotWs) == Filter(s[1..], NotWs)
    ensures Filter([s[0]] + u, NotWs) == Filter(s, NotWs)
  {
    assert ([s[0]] + u)[1..] == u;
  }


  /** Text without whitespace before punctuation is left as it is by the intended pass. */
  lemma {:induction false} StripWsBeforePunctIntendedFixed(s: string)
    requires NoPair(s, WsThenPunct)
    ensures StripWsBeforePunctIntended(s) == s
    decreases |s|
  {
    if s != [] {
      var j := SpanEnd(s, 0, IsWs);
      assert 0 < j < |s| ==> !PairAt(s, j, WsThenPunct);
      NoPairSlice(s, 1, |s|, WsThenPunct);
      StripWsBeforePunctIntendedFixed(s[1..]);
      assert s == [s[0]] + s[1..];
    }
  }

  /** As written, the first pass deletes punctuation: of the run `);` after a space only the
      `;` survives. As intended, only the space goes. */
  lemma StripWsBeforePunctDeletes(s: string)
    requires s == "a );"
    ensures StripWsBeforePunct(s) == "a;"
    ensures StripWsBeforePunctIntended(s) == "a);"
  {
    var t := s[1..];
    assert t == " );";
    assert SpanEnd(s, 0, IsWs) == 0;
    assert SpanEnd(t, 0, IsWs) == 1;
    assert SpanEnd(t, 1, IsPunct) == 3;
    assert t[3..] == [];
    assert t[1..3] == ");";
  }

  /** `s.replace(/([,;:{}()[\].])\s+/g, '$1')`: whitespace after punctuation is dropped. */
  function StripWsAfterPunct(s: string): (r: string)
    ensures |r| <= |s|
    ensures s != [] ==> r != [] && r[0] == s[0]
    decreases |s|
  {
    if s == [] then []
    else if IsPunct(s[0]) && 1 < |s| && IsWs(s[1]) then
      [s[0]] + StripWsAfterPunct(s[SpanEnd(s, 1, IsWs)..])
    else
      [s[0]] + StripWsAfterPunct(s[1..])
  }

  /** After the second pass no whitespace stands right after punctuation. */
  lemma {:induction false} StripWsAfterPunctSeparates(s: string)
    ensures NoPair(StripWsAfterPunct(s), PunctThenWs)
    decreases |s|
  {
    if s != [] {
      if IsPunct(s[0]) && 1 < |s| && IsWs(s[1]) {
        var k := SpanEnd(s, 1, IsWs);
        StripWsAfterPunctSeparates(s[k..]);
        NoPairConcat([s[0]], StripWsAfterPunct(s[k..]), PunctThenWs);
      } else {
        StripWsAfterPunctSeparates(s[1..]);
        NoPairConcat([s[0]], StripWsAfterPunct(s[1..]), PunctThenWs);
      }
    }
  }

  /** The second pass keeps what the first achieved: it only removes whitespace that follows
      punctuation, so no whitespace comes to stand before punctuation. */
  lemma {:induction false} StripWsAfterPunctKeeps(s: string)
    requires NoPair(s, WsThenPunct)
    ensures NoPair(StripWsAfterPunct(s), WsThenPunct)
    decreases |s|
  {
    if s != [] {
      if IsPunct(s[0]) && 1 < |s| && IsWs(s[1]) {
        var k := SpanEnd(s, 1, IsWs);
        NoPairSlice(s, k, |s|, WsThenPunct);
        StripWsAfterPunctKeeps(s[k..]);
        PunctIsNotWs(s[0]);
        NoPairConcat([s[0]], StripWsAfterPunct(s[k..]), WsThenPunct);
      } else {
        NoPairSlice(s, 1, |s|, WsThenPunct);
        StripWsAfterPunctKeeps(s[1..]);
        if 1 < |s| {
          assert !PairAt(s, 1, WsThenPunct);
        }
        NoPairConcat([s[0]], StripWsAfterPunct(s[1..]), WsThenPunct);
      }
    }
  }

  /** The second pass removes whitespace and nothing else. */
  lemma {:induction false} StripWsAfterPunctOnlyWs(s: string)
    ensures Filter(StripWsAfterPunct(s), NotWs) == Filter(s, NotWs)
    decreases |s|
  {
    if s != [] {
      if IsPunct(s[0]) && 1 < |s| && IsWs(s[1]) {
        var k := SpanEnd(s, 1, IsWs);
        var u := StripWsAfterPunct(s[k..]);
        StripWsAfterPunctOnlyWs(s[k..]);
        FilterSkip(s, 1, k, NotWs);
        assert ([s[0]] + u)[1..] == u;
      } else {
        var u := StripWsAfterPunct(s[1..]);
        StripWsAfterPunctOnlyWs(s[1..]);
        assert ([s[0]] + u)[1..] == u;
      }
    }
  }

  /** Text without whitespace before punctuation is left as it is by the first pass. */
  lemma {:induction false} StripWsBeforePunctFixed(s: string)
    requires NoPair(s, WsThenPunct)
    ensures StripWsBeforePunct(s) == s
    decreases |s|
  {
    if s != [] {
      var j := SpanEnd(s, 0, IsWs);
      assert 0 < j < |s| ==> !PairAt(s, j, WsThenPunct);
      NoPairSlice(s, 1, |s|, WsThenPunct);
      StripWsBeforePunctFixed(s[1..]);
      assert s == [s[0]] + s[1..];
    }
  }

  /** Text without whitespace after punctuation is left as it is by the second pass. */
  lemma {:induction false} StripWsAfterPunctFixed(s: string)
    requires NoPair(s, PunctThenWs)
    ensures StripWsAfterPunct(s) == s
    decreases |s|
  {
    if s != [] {
      assert 1 < |s| ==> !PairAt(s, 1, PunctThenWs);
      NoPairSlice(s, 1, |s|, PunctThenWs);
      StripWsAfterPunctFixed(s[1..]);
      assert s == [s[0]] + s[1..];
    }
  }

  // ---------------------------------------------------------------- shared passes

  /** `s.replace(/\n+/g, '\n')` */
  function CollapseNewlines(s: string): (r: string)
    ensures |r| <= |s|
    ensures s != [] ==> r != [] && r[0] == s[0]
    decreases |s|
  {
    if s == [] then []
    else if s[0] == '\n' then ['\n'] + CollapseNewlines(s[SpanEnd(s, 0, IsNewline)..])
    else [s[0]] + CollapseNewlines(s[1..])
  }

  /** No two newlines remain in a row. */
  lemma {:induction false} CollapseNewlinesSeparates(s: string)
    ensures NoPair(CollapseNewlines(s), NewlineThenNewline)
    decreases |s|
  {
    if s != [] {
      if s[0] == '\n' {
        var k := SpanEnd(s, 0, IsNewline);
        CollapseNewlinesSeparates(s[k..]);
        NoPairConcat(['\n'], CollapseNewlines(s[k..]), NewlineThenNewline);
      } else {
        CollapseNewlinesSeparates(s[1..]);
        NoPairConcat([s[0]], CollapseNewlines(s[1..]), NewlineThenNewline);
      }
    }
  }

  /** Collapsing newlines removes newlines, which are whitespace, and nothing else. */
  lemma {:induction false} CollapseNewlinesOnlyWs(s: string)
    ensures Filter(CollapseNewlines(s), NotWs) == Filter(s, NotWs)
    decreases |s|
  {
    if s != [] {
      if s[0] == '\n' {
        var k := SpanEnd(s, 0, IsNewline);
        var u := CollapseNewlines(s[k..]);
        CollapseNewlinesOnlyWs(s[k..]);
        FilterSkip(s, 0, k, NotWs);
        assert s[0..] == s;
        assert (['\n'] + u)[1..] == u;
      } else {
        var u := CollapseNewlines(s[1..]);
        CollapseNewlinesOnlyWs(s[1..]);
        assert ([s[0]] + u)[1..] == u;
      }
    }
  }

  /** Every pair of neighbours in the collapsed text were neighbours before, so a forbidden
      pair that was absent stays absent. */
  lemma {:induction false} CollapseNewlinesKeepsPairs(s: string, bad: (char, char) -> bool)
    requires NoPair(s, bad)
    ensures NoPair(CollapseNewlines(s), bad)
    decreases |s|
  {
    if s != [] {
      if s[0] == '\n' {
        var k := SpanEnd(s, 0, IsNewline);
        NoPairSlice(s, k, |s|, bad);
        CollapseNewlinesKeepsPairs(s[k..], bad);
        if k < |s| {
          assert !PairAt(s, k, bad);
        }
        NoPairConcat(['\n'], CollapseNewlines(s[k..]), bad);
      } else {
        NoPairSlice(s, 1, |s|, bad);
        CollapseNewlinesKeepsPairs(s[1..], bad);
        if 1 < |s| {
          assert !PairAt(s, 1, bad);
        }
        NoPairConcat([s[0]], CollapseNewlines(s[1..]), bad);
      }
    }
  }

  /** Newline collapsing removes newlines and nothing else. */
  lemma {:induction false} CollapseNewlinesOnlyNewlines(s: string)
    ensures Filter(CollapseNewlines(s), NotNewline) == Filter(s, NotNewline)
    decreases |s|
  {
    if s != [] {
      if s[0] == '\n' {
        var k := SpanEnd(s, 0, IsNewline);
        var u := CollapseNewlines(s[k..]);
        CollapseNewlinesOnlyNewlines(s[k..]);
        FilterSkip(s, 0, k, NotNewline);
        assert s[0..] == s;
        assert (['\n'] + u)[1..] == u;
      } else {
        var u := CollapseNewlines(s[1..]);
        CollapseNewlinesOnlyNewlines(s[1..]);
        assert ([s[0]] + u)[1..] == u;
      }
    }
  }

  /** A word without newlines begins the collapsed text only if it began the text. */
  lemma {:induction false} CollapseNewlinesPrefix(u: string, w: string)
    requires '\n' !in w
    ensures w <= CollapseNewlines(u) ==> w <= u
    decreases |w|
  {
    if w != [] && w <= CollapseNewlines(u) {
      assert u != [] && u[0] == w[0];
      assert CollapseNewlines(u) == [u[0]] + CollapseNewlines(u[1..]);
      CollapseNewlinesPrefix(u[1..], w[1..]);
    }
  }

  /** Newline collapsing puts no whitespace in front of a newline-free word. */
  lemma {:induction false} CollapseNewlinesKeepsWord(s: string, w: string)
    requires w != [] && '\n' !in w && NoWsBefore(s, w)
    ensures NoWsBefore(CollapseNewlines(s), w)
    decreases |s|
  {
    if s != [] {
      if s[0] == '\n' {
        var k := SpanEnd(s, 0, IsNewline);
        var u := CollapseNewlines(s[k..]);
        NoWsBeforeSlice(s, k, |s|, w);
        CollapseNewlinesKeepsWord(s[k..], w);
        CollapseNewlinesPrefix(s[k..], w);
        assert s[k - 1] == '\n' && !WsBeforeAt(s, k, w);
        NoWsBeforeCons('\n', u, w);
      } else {
        var u := CollapseNewlines(s[1..]);
        NoWsBeforeSlice(s, 1, |s|, w);
        CollapseNewlinesKeepsWord(s[1..], w);
        CollapseNewlinesPrefix(s[1..], w);
        assert !WsBeforeAt(s, 1, w);
        NoWsBeforeCons(s[0], u, w);
      }
    }
  }

  /** Text with no two newlines in a row is left as it is. */
  lemma {:induction false} CollapseNewlinesFixed(s: string)
    requires NoPair(s, NewlineThenNewline)
    ensures CollapseNewlines(s) == s
    decreases |s|
  {
    if s != [] {
      NoPairSlice(s, 1, |s|, NewlineThenNewline);
      CollapseNewlinesFixed(s[1..]);
      if s[0] == '\n' {
        if 1 < |s| {
          assert !PairAt(s, 1, NewlineThenNewline);
        }
        SpanEndUnique(s, 0, IsNewline, 1);
      }
      assert s == [s[0]] + s[1..];
    }
  }

  /** Newline collapsing leaves exactly the texts without a double newline unchanged, so
      applying it twice is applying it once. */
  lemma CollapseNewlinesIdempotent(s: string)
    ensures CollapseNewlines(s) == s <==> NoPair(s, NewlineThenNewline)
    ensures CollapseNewlines(CollapseNewlines(s)) == CollapseNewlines(s)
  {
    CollapseNewlinesSeparates(s);
    if NoPair(s, NewlineThenNewline) {
      CollapseNewlinesFixed(s);
    }
    CollapseNewlinesFixed(CollapseNewlines(s));
  }

  // ---------------------------------------------------------------- CSS passes

  /** `s.replace(/;+\s*}/g, '}')`: semicolons, then optional whitespace, then a closing brace
      become the brace alone. */
  function DropSemicolonsBeforeBrace(s: string): (r: string)
    ensures |r| <= |s|
    decreases |s|
  {
    if s == [] then []
    else
      var k := SpanEnd(s, SpanEnd(s, 0, IsSemicolon), IsWs);
      if s[0] == ';' && k < |s| && s[k] == '}' then ['}'] + DropSemicolonsBeforeBrace(s[k + 1..])
      else [s[0]] + DropSemicolonsBeforeBrace(s[1..])
  }

  /** A character other than a semicolon never starts a match. */
  lemma DropSemicolonsCopiesOne(s: string)
    requires s != [] && s[0] != ';'
    ensures DropSemicolonsBeforeBrace(s) == [s[0]] + DropSemicolonsBeforeBrace(s[1..])
  {
  }

  /** A stretch without semicolons is copied unchanged, whatever follows it. */
  lemma {:induction false} DropSemicolonsCopies(s: string, t: string)
    requires forall i :: 0 <= i < |s| ==> s[i] != ';'
    ensures DropSemicolonsBeforeBrace(s + t) == s + DropSemicolonsBeforeBrace(t)
    decreases |s|
  {
    if s != [] {
      var u := s + t;
      assert u[0] == s[0] && u[1..] == s[1..] + t;
      DropSemicolonsCopiesOne(u);
      DropSemicolonsCopies(s[1..], t);
      assert [s[0]] + (s[1..] + DropSemicolonsBeforeBrace(t)) == s + DropSemicolonsBeforeBrace(t);
    } else {
      assert s + t == t;
    }
  }

  /** Where the pattern fails at a semicolon it fails at the next character too, so what
      follows a kept semicolon begins with the next input character, which is no brace. */
  lemma {:induction false} DropSemicolonsFailsOnward(s: string)
    requires |s| > 1 && s[0] == ';'
    requires var k := SpanEnd(s, SpanEnd(s, 0, IsSemicolon), IsWs); !(k < |s| && s[k] == '}')
    ensures DropSemicolonsBeforeBrace(s[1..])[0] == s[1] != '}'
  {
    var t := s[1..];
    var j := SpanEnd(s, 0, IsSemicolon);
    var k := SpanEnd(s, j, IsWs);
    if t[0] == ';' {
      assert j == SpanEnd(s, 1, IsSemicolon);
      SpanEndShift(s, 1, IsSemicolon);
      SpanEndShift(s, j, IsWs);
      var k' := SpanEnd(t, SpanEnd(t, 0, IsSemicolon), IsWs);
      assert k' == k - 1;
      assert !(k' < |t| && t[k'] == '}');
      assert DropSemicolonsBeforeBrace(t) == [t[0]] + DropSemicolonsBeforeBrace(t[1..]);
    } else {
      assert j == 1;
      assert s[1] == '}' ==> k == 1;
    }
  }

  /** After the first CSS pass no semicolon stands right before a closing brace. */
  lemma {:induction false} DropSemicolonsSeparates(s: string)
    ensures NoPair(DropSemicolonsBeforeBrace(s), SemicolonThenBrace)
    decreases |s|
  {
    if s != [] {
      var k := SpanEnd(s, SpanEnd(s, 0, IsSemicolon), IsWs);
      if s[0] == ';' && k < |s| && s[k] == '}' {
        DropSemicolonsSeparates(s[k + 1..]);
        NoPairConcat(['}'], DropSemicolonsBeforeBrace(s[k + 1..]), SemicolonThenBrace);
      } else {
        DropSemicolonsSeparates(s[1..]);
        if s[0] == ';' && |s| > 1 {
          DropSemicolonsFailsOnward(s);
        }
        NoPairConcat([s[0]], DropSemicolonsBeforeBrace(s[1..]), SemicolonThenBrace);
      }
    }
  }

  /** The first CSS pass removes semicolons and whitespace and nothing else. */
  lemma {:induction false} DropSemicolonsOnlySemicolonsAndWs(s: string)
    ensures Filter(DropSemicolonsBeforeBrace(s), NotSemicolonOrWs) == Filter(s, NotSemicolonOrWs)
    decreases |s|
  {
    if s != [] {
      var j := SpanEnd(s, 0, IsSemicolon);
      var k := SpanEnd(s, j, IsWs);
      if s[0] == ';' && k < |s| && s[k] == '}' {
        var u := DropSemicolonsBeforeBrace(s[k + 1..]);
        DropSemicolonsOnlySemicolonsAndWs(s[k + 1..]);
        FilterSkip(s, 0, k, NotSemicolonOrWs);
        assert s[0..] == s;
        assert s[k..][1..] == s[k + 1..];
        assert (['}'] + u)[1..] == u;
      } else {
        var u := DropSemicolonsBeforeBrace(s[1..]);
        DropSemicolonsOnlySemicolonsAndWs(s[1..]);
        assert ([s[0]] + u)[1..] == u;
      }
    }
  }

  const Important: string := "!important"

  /** The characters of `!important`: one `!` in front, no whitespace, semicolon or newline. */
  lemma ImportantChars()
    ensures |Important| == 10 && Important[0] == '!'
    ensures forall i :: 0 <= i < |Important| ==>
      !IsWs(Important[i]) && Important[i] != ';' && (i > 0 ==> Important[i] != '!')
    ensures '\n' !in Important
  {
  }

  /** `s.replace(/\s*!important/g, '!important')` */
  function TightenImportant(s: string): (r: string)
    ensures |r| <= |s|
    decreases |s|
  {
    if s == [] then []
    else
      var k := SpanEnd(s, 0, IsWs);
      if Important <= s[k..] then Important + TightenImportant(s[k + |Important|..])
      else [s[0]] + TightenImportant(s[1..])
  }

  /** Either a match begins here, and the output begins with `!`, or one character is copied. */
  lemma TightenImportantStep(s: string)
    requires s != []
    ensures var r := TightenImportant(s);
      (r != [] && r[0] == '!') || r == [s[0]] + TightenImportant(s[1..])
  {
    ImportantChars();
  }

  /** A proper tail of `!important` begins the tightened text only if it began the text. */
  lemma {:induction false} TightenImportantPrefix(u: string, m: nat)
    requires 1 <= m < |Important|
    ensures Important[m..] <= TightenImportant(u) ==> Important[m..] <= u
    decreases |Important| - m
  {
    var w := Important[m..];
    if w <= TightenImportant(u) {
      ImportantChars();
      CopiedBeforeTail(u, w);
      if m + 1 < |Important| {
        assert Important[m + 1..] == w[1..];
        TightenImportantPrefix(u[1..], m + 1);
      }
      ConsPrefix(w, u[0], u[1..]);
      assert [u[0]] + u[1..] == u;
    }
  }

  /** A text that does not start with `!` begins the tightened `u` only after a copied
      first character of `u`. */
  lemma CopiedBeforeTail(u: string, w: string)
    requires w != [] && w[0] != '!' && w <= TightenImportant(u)
    ensures u != [] && w[0] == u[0] && w[1..] <= TightenImportant(u[1..])
  {
    TightenImportantStep(u);
    ConsPrefix(w, u[0], TightenImportant(u[1..]));
  }

  /** After the second CSS pass no whitespace stands before `!important`. */
  lemma {:induction false} TightenImportantSeparates(s: string)
    ensures NoWsBefore(TightenImportant(s), Important)
    decreases |s|
  {
    if s != [] {
      var k := SpanEnd(s, 0, IsWs);
      if Important <= s[k..] {
        TightenImportantSeparates(s[k + |Important|..]);
        SeparatedAfterMatch(TightenImportant(s[k + |Important|..]));
      } else {
        TightenImportantSeparates(s[1..]);
        SeparatedAfterCopy(s);
      }
    }
  }

  /** The replacement `!important` followed by a separated text is separated. */
  lemma SeparatedAfterMatch(u: string)
    requires NoWsBefore(u, Important)
    ensures NoWsBefore(Important + u, Important)
  {
    ImportantChars();
    var r := Important + u;
    forall i | 0 < i < |r| && Important <= r[i..]
      ensures !WsBeforeAt(r, i, Important)
    {
      if i > |Important| {
        assert r[i..] == u[i - |Important|..];
        assert r[i - 1] == u[i - 1 - |Important|];
        assert !WsBeforeAt(u, i - |Important|, Important);
      } else {
        assert r[i - 1] == Important[i - 1];
      }
    }
  }

  /** Where no match begins, the copied first character cannot stand as whitespace before a
      `!important` of the tightened rest. */
  lemma SeparatedAfterCopy(s: string)
    requires s != [] && !(Important <= s[SpanEnd(s, 0, IsWs)..])
    requires NoWsBefore(TightenImportant(s[1..]), Important)
    ensures NoWsBefore([s[0]] + TightenImportant(s[1..]), Important)
  {
    if IsWs(s[0]) && |s| > 1 {
      NoMatchAfterWs(s);
    }
    assert |Important| == 10;
    NoWsBeforeCons(s[0], TightenImportant(s[1..]), Important);
  }

  /** When the match fails at a whitespace character, the tightened rest does not begin
      with `!important` either. */
  lemma NoMatchAfterWs(s: string)
    requires |s| > 1 && IsWs(s[0]) && !(Important <= s[SpanEnd(s, 0, IsWs)..])
    ensures !(Important <= TightenImportant(s[1..]))
  {
    var t := s[1..];
    var j := SpanEnd(t, 0, IsWs);
    SpanEndShift(s, 1, IsWs);
    assert SpanEnd(s, 0, IsWs) == j + 1;
    assert s[j + 1..] == t[j..];
    assert TightenImportant(t) == [t[0]] + TightenImportant(t[1..]);
    ImportantChars();
    ConsPrefix(Important, t[0], TightenImportant(t[1..]));
    if !IsWs(t[0]) {
      assert j == 0 && t[j..] == t;
      TightenImportantPrefix(t[1..], 1);
      ConsPrefix(Important, t[0], t[1..]);
      assert [t[0]] + t[1..] == t;
    }
  }

  /** `w` begins `[c] + x` iff it begins with `c` and the rest of it begins `x`. */
  lemma ConsPrefix(w: string, c: char, x: string)
    requires w != []
    ensures w <= [c] + x <==> w[0] == c && w[1..] <= x
  {
    var y := [c] + x;
    if w[0] == c && w[1..] <= x {
      assert forall i :: 1 <= i < |w| ==> w[i] == w[1..][i - 1] == x[i - 1] == y[i];
    }
    if w <= y {
      assert forall i :: 0 <= i < |w| - 1 ==> w[1..][i] == w[i + 1] == y[i + 1] == x[i];
    }
  }


  /** The second CSS pass removes whitespace and nothing else. */
  lemma {:induction false} TightenImportantOnlyWs(s: string)
    ensures Filter(TightenImportant(s), NotWs) == Filter(s, NotWs)
    decreases |s|
  {
    if s != [] {
      var k := SpanEnd(s, 0, IsWs);
      if Important <= s[k..] {
        var rest := s[k + |Important|..];
        var u := TightenImportant(rest);
        TightenImportantOnlyWs(rest);
        ImportantChars();
        FilterSkip(s, 0, k, NotWs);
        assert s[0..] == s;
        assert s[k..] == Important + rest;
        FilterKeepsAll(Important, NotWs);
        FilterConcat(Important, rest, NotWs);
        FilterConcat(Important, u, NotWs);
      } else {
        var u := TightenImportant(s[1..]);
        TightenImportantOnlyWs(s[1..]);
        assert ([s[0]] + u)[1..] == u;
      }
    }
  }

  /** The second CSS pass creates no semicolon-brace pair. */
  lemma {:induction false} TightenImportantKeepsPairs(s: string)
    requires NoPair(s, SemicolonThenBrace)
    ensures NoPair(TightenImportant(s), SemicolonThenBrace)
    decreases |s|
  {
    if s != [] {
      var k := SpanEnd(s, 0, IsWs);
      if Important <= s[k..] {
        var u := TightenImportant(s[k + |Important|..]);
        NoPairSlice(s, k + |Important|, |s|, SemicolonThenBrace);
        TightenImportantKeepsPairs(s[k + |Important|..]);
        ImportantChars();
        NoPairConcat(Important, u, SemicolonThenBrace);
      } else {
        var u := TightenImportant(s[1..]);
        NoPairSlice(s, 1, |s|, SemicolonThenBrace);
        TightenImportantKeepsPairs(s[1..]);
        if s[1..] != [] {
          TightenImportantStep(s[1..]);
          assert !PairAt(s, 1, SemicolonThenBrace);
        }
        NoPairConcat([s[0]], u, SemicolonThenBrace);
      }
    }
  }

  /** `trim` only cuts off the ends, so it creates no new neighbours. */
  lemma TrimKeeps(s: string, bad: (char, char) -> bool, w: string)
    ensures NoPair(s, bad) ==> NoPair(Trim(s), bad)
    ensures NoWsBefore(s, w) ==> NoWsBefore(Trim(s), w)
  {
    TrimKeepsPairs(s, bad);
    TrimKeepsWord(s, w);
  }

  lemma TrimKeepsPairs(s: string, bad: (char, char) -> bool)
    ensures NoPair(s, bad) ==> NoPair(Trim(s), bad)
  {
    var lo := TrimIsInfix(s);
    if NoPair(s, bad) {
      NoPairSlice(s, lo, lo + |Trim(s)|, bad);
    }
  }

  lemma TrimKeepsWord(s: string, w: string)
    ensures NoWsBefore(s, w) ==> NoWsBefore(Trim(s), w)
  {
    var lo := TrimIsInfix(s);
    if NoWsBefore(s, w) {
      NoWsBeforeSlice(s, lo, lo + |Trim(s)|, w);
    }
  }

  /** Text where no whitespace precedes `!important` is left as it is. */
  lemma {:induction false} TightenImportantFixed(s: string)
    requires NoWsBefore(s, Important)
    ensures TightenImportant(s) == s
    decreases |s|
  {
    if s != [] {
      var k := SpanEnd(s, 0, IsWs);
      if Important <= s[k..] {
        var n := |Important|;
        ImportantLeads(s);
        NoWsBeforeSlice(s, n, |s|, Important);
        TightenImportantFixed(s[n..]);
        FixedAtMatch(s);
      } else {
        NoWsBeforeSlice(s, 1, |s|, Important);
        TightenImportantFixed(s[1..]);
        FixedAtCopy(s);
      }
    }
  }

  /** A match at the very start is kept as it is. */
  lemma FixedAtMatch(s: string)
    requires SpanEnd(s, 0, IsWs) == 0 && |Important| <= |s| && s[..|Important|] == Important
    requires TightenImportant(s[|Important|..]) == s[|Important|..]
    ensures TightenImportant(s) == s
  {
    assert s[0..] == s;
    assert TightenImportant(s) == Important + TightenImportant(s[|Important|..]);
    assert s == s[..|Important|] + s[|Important|..];
  }

  /** A copied first character is kept as it is. */
  lemma FixedAtCopy(s: string)
    requires s != [] && !(Important <= s[SpanEnd(s, 0, IsWs)..])
    requires TightenImportant(s[1..]) == s[1..]
    ensures TightenImportant(s) == s
  {
    assert s == [s[0]] + s[1..];
  }


  /** With no whitespace before `!important`, a match can only begin at the very start. */
  lemma ImportantLeads(s: string)
    requires NoWsBefore(s, Important)
    requires s != [] && Important <= s[SpanEnd(s, 0, IsWs)..]
    ensures SpanEnd(s, 0, IsWs) == 0
    ensures |Important| <= |s| && s[..|Important|] == Important
  {
    assert |Important| == 10;
    WordLeads(s, Important);
  }

  /** A word that no whitespace may precede, found after the leading whitespace run, stands
      at the very start. */
  lemma WordLeads(s: string, w: string)
    requires NoWsBefore(s, w) && w != []
    requires w <= s[SpanEnd(s, 0, IsWs)..]
    ensures SpanEnd(s, 0, IsWs) == 0
    ensures |w| <= |s| && s[..|w|] == w
  {
    var k := SpanEnd(s, 0, IsWs);
    assert 0 < k < |s| ==> !WsBeforeAt(s, k, w);
    assert s[k..] == s;
  }


  /** The `!important` pass leaves exactly the texts without whitespace before `!important`
      unchanged, so applying it twice is applying it once. */
  lemma TightenImportantIdempotent(s: string)
    ensures TightenImportant(s) == s <==> NoWsBefore(s, Important)
    ensures TightenImportant(TightenImportant(s)) == TightenImportant(s)
  {
    TightenImportantSeparates(s);
    if NoWsBefore(s, Important) {
      TightenImportantFixed(s);
    }
    TightenImportantFixed(TightenImportant(s));
  }

  // ---------------------------------------------------------------- the two post-passes

  /** The end of `minifyJS`: the four replacements and `trim`, the first of them as written
      or as intended. The result has no whitespace before or after punctuation, no blank
      lines, and no whitespace at either end. */
  function JsPostPass(s: string, asWritten: bool): (r: string)
    ensures |r| <= |s|
    ensures NoPair(r, WsThenPunct) && NoPair(r, PunctThenWs)
    ensures NoPair(r, NewlineThenNewline)
    ensures r == [] || (!IsWs(r[0]) && !IsWs(r[|r| - 1]))
  {
    var a := StripWsBeforePunctWith(s, asWritten);
    var b := StripWsAfterPunct(a);
    var c := CollapseNewlines(b);
    StripWsBeforePunctSeparates(s);
    StripWsBeforePunctIntendedSeparates(s);
    StripWsAfterPunctSeparates(a);
    StripWsAfterPunctKeeps(a);
    CollapseNewlinesSeparates(b);
    CollapseNewlinesKeepsPairs(b, WsThenPunct);
    CollapseNewlinesKeepsPairs(b, PunctThenWs);
    TrimKeeps(c, WsThenPunct, Important);
    TrimKeeps(c, PunctThenWs, Important);
    TrimKeeps(c, NewlineThenNewline, Important);
    Trim(c)
  }

  /** The end of `minifyCSS`: the three replacements and `trim`. The result has no semicolon
      right before a closing brace, no whitespace before `!important`, no blank lines, and
      no whitespace at either end. */
  function CssPostPass(s: string): (r: string)
    ensures |r| <= |s|
    ensures NoPair(r, SemicolonThenBrace)
    ensures NoWsBefore(r, Important)
    ensures NoPair(r, NewlineThenNewline)
    ensures r == [] || (!IsWs(r[0]) && !IsWs(r[|r| - 1]))
  {
    var a := DropSemicolonsBeforeBrace(s);
    var b := TightenImportant(a);
    var c := CollapseNewlines(b);
    DropSemicolonsSeparates(s);
    TightenImportantSeparates(a);
    TightenImportantKeepsPairs(a);
    CollapseNewlinesSeparates(b);
    CollapseNewlinesKeepsPairs(b, SemicolonThenBrace);
    ImportantChars();
    CollapseNewlinesKeepsWord(b, Important);
    TrimKeeps(c, SemicolonThenBrace, Important);
    TrimKeeps(c, NewlineThenNewline, Important);
    Trim(c)
  }

  /** When the semicolon pass leaves a text with nothing for the later passes to do, the
      CSS post-pass is that pass alone. */
  lemma CssPostPassIsSemicolonPass(s: string)
    requires var a := DropSemicolonsBeforeBrace(s);
      && NoWsBefore(a, Important) && NoPair(a, NewlineThenNewline)
      && (a == [] || (!IsWs(a[0]) && !IsWs(a[|a| - 1])))
    ensures CssPostPass(s) == DropSemicolonsBeforeBrace(s)
  {
    var a := DropSemicolonsBeforeBrace(s);
    TightenImportantFixed(a);
    CollapseNewlinesFixed(a);
    TrimNoop(a);
  }

  /** What the JavaScript post-pass guarantees of its output: no whitespace touches
      punctuation, no two newlines stand together, and the text is trimmed. */
  predicate JsPassed(s: string) {
    && NoPair(s, WsThenPunct) && NoPair(s, PunctThenWs) && NoPair(s, NewlineThenNewline)
    && (s == [] || (!IsWs(s[0]) && !IsWs(s[|s| - 1])))
  }

  /** The JavaScript post-pass leaves a text unchanged iff it already has that shape; in
      particular applying it to its own output changes nothing. */
  lemma JsPostPassIdempotent(s: string, asWritten: bool)
    ensures JsPostPass(s, asWritten) == s <==> JsPassed(s)
    ensures JsPostPass(JsPostPass(s, asWritten), asWritten) == JsPostPass(s, asWritten)
  {
    var r := JsPostPass(s, asWritten);
    assert JsPassed(r);
    JsPostPassFixed(r, asWritten);
    if JsPassed(s) {
      JsPostPassFixed(s, asWritten);
    }
  }

  lemma JsPostPassFixed(s: string, asWritten: bool)
    requires JsPassed(s)
    ensures JsPostPass(s, asWritten) == s
  {
    StripWsBeforePunctFixed(s);
    StripWsBeforePunctIntendedFixed(s);
    StripWsAfterPunctFixed(s);
    CollapseNewlinesFixed(s);
    TrimNoop(s);
  }

  /** As intended, the JavaScript post-pass removes whitespace and nothing else. */
  lemma JsPostPassOnlyWs(s: string)
    ensures RemoveWs(JsPostPass(s, false)) == RemoveWs(s)
  {
    var a := StripWsBeforePunctIntended(s);
    var b := StripWsAfterPunct(a);
    StripWsBeforePunctIntendedOnlyWs(s);
    StripWsAfterPunctOnlyWs(a);
    CollapseNewlinesOnlyWs(b);
    RemoveWsTrim(CollapseNewlines(b));
  }

  /** When the first pass leaves a text with nothing for the later passes to do, the
      JavaScript post-pass is that pass alone. */
  lemma JsPostPassIsFirstPass(s: string, asWritten: bool)
    requires var a := StripWsBeforePunctWith(s, asWritten);
      && NoPair(a, PunctThenWs) && NoPair(a, NewlineThenNewline)
      && (a == [] || (!IsWs(a[0]) && !IsWs(a[|a| - 1])))
    ensures JsPostPass(s, asWritten) == StripWsBeforePunctWith(s, asWritten)
  {
    var a := StripWsBeforePunctWith(s, asWritten);
    StripWsAfterPunctFixed(a);
    CollapseNewlinesFixed(a);
    TrimNoop(a);
  }

  /** As written, the JavaScript post-pass deletes a closing parenthesis that follows a
      space; as intended, it keeps it. */
  lemma JsPostPassDeletesPunct(s: string)
    requires s == "a );"
    ensures JsPostPass(s, true) == "a;"
    ensures JsPostPass(s, false) == "a);"
    ensures RemoveWs(JsPostPass(s, true)) != RemoveWs(s)
  {
    StripWsBeforePunctDeletes(s);
    CleanText("a;");
    CleanText("a);");
    JsPostPassIsFirstPass(s, true);
    JsPostPassIsFirstPass(s, false);
    SpaceDropped(s);
  }

  lemma CleanText(a: string)
    requires a == "a;" || a == "a);"
    ensures NoPair(a, PunctThenWs) && NoPair(a, NewlineThenNewline)
    ensures !IsWs(a[0]) && !IsWs(a[|a| - 1])
    ensures RemoveWs(a) == a
  {
    FilterKeepsAll(a, NotWs);
  }

  lemma SpaceDropped(s: string)
    requires s == "a );"
    ensures RemoveWs(s) == "a);"
  {
    FilterKeepsAll(s[2..], NotWs);
    assert s[1..][1..] == s[2..];
    assert Filter(s[1..], NotWs) == s[2..];
    assert s[1..] == s[0..][1..];
  }
}
