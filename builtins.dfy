/** JavaScript string built-ins that the validators and the minifier rely on.
    Case mapping is ASCII-only; whitespace is the exact set that `\s` and
    `String.prototype.trim` use. Strings are sequences of code points. */
module Builtins {

  datatype Option<+T> = None | Some(value: T)

  /** A value, or the message of the error JavaScript would throw. */
  datatype Result<+T> = Success(value: T) | Failure(error: string)

  // ---------------------------------------------------------------- characters

  /** `\s` in a JavaScript regular expression, and what `trim` removes
      (WhiteSpace and LineTerminator of ECMA-262). */
  predicate IsWs(c: char) {
    c == ' ' || c == '\t' || c == '\n' || c == '\U{B}' || c == '\U{C}' || c == '\r'
    || c == '\U{A0}' || c == '\U{1680}' || ('\U{2000}' <= c <= '\U{200A}')
    || c == '\U{2028}' || c == '\U{2029}' || c == '\U{202F}' || c == '\U{205F}'
    || c == '\U{3000}' || c == '\U{FEFF}'
  }

  predicate NotWs(c: char) { !IsWs(c) }

  /** `\d`: an ASCII digit. */
  predicate IsDigit(c: char) { '0' <= c <= '9' }
  predicate IsUpper(c: char) { 'A' <= c <= 'Z' }
  predicate IsLower(c: char) { 'a' <= c <= 'z' }
  predicate IsLetter(c: char) { IsUpper(c) || IsLower(c) }
  predicate IsAlnum(c: char) { IsLetter(c) || IsDigit(c) }
  /** `[0-9a-fA-F]` */
  predicate IsHexDigit(c: char) { IsDigit(c) || ('a' <= c <= 'f') || ('A' <= c <= 'F') }

  function DigitValue(c: char): nat
    requires IsDigit(c)
  {
    (c as int) - ('0' as int)
  }

  function DigitChar(d: nat): (c: char)
    requires d < 10
    ensures IsDigit(c) && DigitValue(c) == d
  {
    (('0' as int) + d) as char
  }

  /** `toUpperCase` / `toLowerCase` restricted to ASCII letters. */
  function ToUpper(c: char): char {
    if IsLower(c) then ((c as int) - 32) as char else c
  }

  function ToLower(c: char): char {
    if IsUpper(c) then ((c as int) + 32) as char else c
  }

  function UpperStr(s: string): (r: string)
    ensures |r| == |s|
    ensures forall i :: 0 <= i < |s| ==> r[i] == ToUpper(s[i])
  {
    seq(|s|, i requires 0 <= i < |s| => ToUpper(s[i]))
  }

  function LowerStr(s: string): (r: string)
    ensures |r| == |s|
    ensures forall i :: 0 <= i < |s| ==> r[i] == ToLower(s[i])
  {
    seq(|s|, i requires 0 <= i < |s| => ToLower(s[i]))
  }

  predicate AllChars(s: string, p: char -> bool) {
    forall i :: 0 <= i < |s| ==> p(s[i])
  }

  predicate AnyChar(s: string, p: char -> bool) {
    exists i :: 0 <= i < |s| && p(s[i])
  }

  /** The end of the run of characters satisfying `p` that starts at `from`: what a greedy
      `P*` matches, and what a `while (j < n && p(s[j])) j++` loop stops at. */
  function SpanEnd(s: string, from: nat, p: char -> bool): (k: nat)
    requires from <= |s|
    ensures from <= k <= |s|
    ensures forall i :: from <= i < k ==> p(s[i])
    ensures k == |s| || !p(s[k])
    decreases |s| - from
  {
    if from < |s| && p(s[from]) then SpanEnd(s, from + 1, p) else from
  }

  /** The end of a run is determined by its start. */
  lemma SpanEndUnique(s: string, from: nat, p: char -> bool, k: nat)
    requires from <= k <= |s|
    requires forall i :: from <= i < k ==> p(s[i])
    requires k == |s| || !p(s[k])
    ensures SpanEnd(s, from, p) == k
  {
  }

  /** Dropping the first character shifts every run end by one. */
  lemma SpanEndShift(s: string, from: nat, p: char -> bool)
    requires 1 <= from <= |s|
    ensures SpanEnd(s[1..], from - 1, p) == SpanEnd(s, from, p) - 1
  {
    var k := SpanEnd(s, from, p);
    SpanEndUnique(s[1..], from - 1, p, k - 1);
  }

  /** `/^\d*$/.test(s)`: every character is a decimal digit. */
  predicate AllDigits(s: string) {
    forall i :: 0 <= i < |s| ==> IsDigit(s[i])
  }

  /** `/^\d+$/.test(s)` */
  predicate IsDigits(s: string) {
    |s| > 0 && forall i :: 0 <= i < |s| ==> IsDigit(s[i])
  }

  // ---------------------------------------------------------------- filtering

  /** `s.replace(/[^P]/g, '')`: the characters of `s` that satisfy `keep`, in order. */
  function Filter(s: string, keep: char -> bool): string
    decreases |s|
  {
    if s == [] then [] else (if keep(s[0]) then [s[0]] else []) + Filter(s[1..], keep)
  }

  /** The filter keeps only characters that satisfy it, taken from the input. */
  lemma {:induction false} FilterKeeps(s: string, keep: char -> bool)
    ensures |Filter(s, keep)| <= |s|
    ensures forall i :: 0 <= i < |Filter(s, keep)| ==> keep(Filter(s, keep)[i])
    ensures forall c :: c in Filter(s, keep) ==> c in s
    decreases |s|
  {
    if s != [] {
      FilterKeeps(s[1..], keep);
    }
  }

  lemma {:induction false} FilterKeepsAll(s: string, keep: char -> bool)
    requires forall i :: 0 <= i < |s| ==> keep(s[i])
    ensures Filter(s, keep) == s
    decreases |s|
  {
    if s != [] {
      FilterKeepsAll(s[1..], keep);
    }
  }

  lemma {:induction false} FilterDropsAll(s: string, keep: char -> bool)
    requires forall i :: 0 <= i < |s| ==> !keep(s[i])
    ensures Filter(s, keep) == []
    decreases |s|
  {
    if s != [] {
      FilterDropsAll(s[1..], keep);
    }
  }

  /** Characters the filter drops can be skipped. */
  lemma {:induction false} FilterSkip(s: string, from: nat, to: nat, keep: char -> bool)
    requires from <= to <= |s|
    requires forall i :: from <= i < to ==> !keep(s[i])
    ensures Filter(s[from..], keep) == Filter(s[to..], keep)
    decreases |s| - from
  {
    if from < to {
      assert s[from..][1..] == s[from + 1..];
      FilterSkip(s, from + 1, to, keep);
    }
  }

  lemma {:induction false} FilterConcat(a: string, b: string, keep: char -> bool)
    ensures Filter(a + b, keep) == Filter(a, keep) + Filter(b, keep)
    decreases |a|
  {
    if a == [] {
      assert a + b == b;
    } else {
      assert (a + b)[1..] == a[1..] + b;
      FilterConcat(a[1..], b, keep);
    }
  }

  /** A character is kept exactly when it satisfies the filter. */
  lemma {:induction false} FilterMembership(s: string, keep: char -> bool, c: char)
    ensures c in Filter(s, keep) <==> c in s && keep(c)
    decreases |s|
  {
    if s != [] {
      FilterMembership(s[1..], keep, c);
      assert s == [s[0]] + s[1..];
    }
  }

  /** `s.replace(/\D+/g, '')` */
  function DigitsOnly(s: string): string {
    Filter(s, IsDigit)
  }

  /** `s.replace(/\s+/g, '')` */
  function RemoveWs(s: string): string {
    Filter(s, NotWs)
  }

  // ---------------------------------------------------------------- trim

  function TrimStart(s: string): (r: string)
    ensures |r| <= |s| && r == s[|s| - |r|..]
    ensures r == [] || !IsWs(r[0])
    ensures forall i :: 0 <= i < |s| - |r| ==> IsWs(s[i])
    decreases |s|
  {
    if s != [] && IsWs(s[0]) then TrimStart(s[1..]) else s
  }

  function TrimEnd(s: string): (r: string)
    ensures |r| <= |s| && r == s[..|r|]
    ensures r == [] || !IsWs(r[|r| - 1])
    ensures forall i :: |r| <= i < |s| ==> IsWs(s[i])
    decreases |s|
  {
    if s != [] && IsWs(s[|s| - 1]) then TrimEnd(s[..|s| - 1]) else s
  }

  /** `s.trim()`: the input with its leading and trailing whitespace removed. */
  function Trim(s: string): (r: string)
    ensures |r| <= |s|
    ensures r == [] || (!IsWs(r[0]) && !IsWs(r[|r| - 1]))
  {
    TrimEnd(TrimStart(s))
  }

  /** What `trim` returns is a contiguous piece of the input, and only whitespace is dropped. */
  lemma TrimIsInfix(s: string) returns (a: nat)
    ensures a + |Trim(s)| <= |s| && Trim(s) == s[a..a + |Trim(s)|]
    ensures forall i :: 0 <= i < a ==> IsWs(s[i])
    ensures forall i :: a + |Trim(s)| <= i < |s| ==> IsWs(s[i])
  {
    var t := TrimStart(s);
    a := |s| - |t|;
    var r := TrimEnd(t);
    assert Trim(s) == r;
    SuffixPrefix(s, t, r, a);
  }

  lemma SuffixPrefix(s: string, t: string, r: string, a: nat)
    requires a <= |s| && t == s[a..]
    requires |r| <= |t| && r == t[..|r|]
    requires forall i :: |r| <= i < |t| ==> IsWs(t[i])
    ensures a + |r| <= |s| && r == s[a..a + |r|]
    ensures forall i :: a + |r| <= i < |s| ==> IsWs(s[i])
  {
    forall i | a + |r| <= i < |s| ensures IsWs(s[i]) {
      assert s[i] == t[i - a];
    }
  }

  /** Removing all whitespace after `trim` is removing all whitespace. */
  lemma RemoveWsTrim(s: string)
    ensures RemoveWs(Trim(s)) == RemoveWs(s)
  {
    var a := TrimIsInfix(s);
    var t := Trim(s);
    var b := a + |t|;
    assert s == s[..a] + t + s[b..];
    FilterDropsEnds(s[..a], t, s[b..], NotWs);
  }

  /** Dropped characters around a middle part leave only the middle part's survivors. */
  lemma FilterDropsEnds(x: string, m: string, y: string, keep: char -> bool)
    requires forall i :: 0 <= i < |x| ==> !keep(x[i])
    requires forall i :: 0 <= i < |y| ==> !keep(y[i])
    ensures Filter(x + m + y, keep) == Filter(m, keep)
  {
    FilterConcat(x + m, y, keep);
    FilterConcat(x, m, keep);
    FilterDropsAll(x, keep);
    FilterDropsAll(y, keep);
  }

  /** A string without leading or trailing whitespace is its own trim. */
  lemma TrimNoop(s: string)
    requires s == [] || (!IsWs(s[0]) && !IsWs(s[|s| - 1]))
    ensures Trim(s) == s
  {
  }

  lemma TrimIdempotent(s: string)
    ensures Trim(Trim(s)) == Trim(s)
  {
    TrimNoop(Trim(s));
  }

  // ---------------------------------------------------------------- searching

  /** `s.indexOf(c)`: the first position of `c`, or -1. */
  function IndexOf(s: string, c: char): (r: int)
    ensures -1 <= r < |s|
    ensures r == -1 <==> c !in s
    ensures r >= 0 ==> s[r] == c && c !in s[..r]
    decreases |s|
  {
    if s == [] then -1
    else if s[0] == c then 0
    else
      var k := IndexOf(s[1..], c);
      assert s[1..][..if k < 0 then 0 else k] == s[1..1 + if k < 0 then 0 else k];
      if k < 0 then -1 else k + 1
  }

  /** `s.includes(sub)` */
  predicate IsInfix(sub: string, s: string)
    decreases |s|
  {
    sub <= s || (s != [] && IsInfix(sub, s[1..]))
  }

  lemma {:induction false} InfixAt(sub: string, s: string, k: nat)
    requires k + |sub| <= |s| && s[k..k + |sub|] == sub
    ensures IsInfix(sub, s)
    decreases k
  {
    if k > 0 {
      assert s[1..][k - 1..k - 1 + |sub|] == s[k..k + |sub|];
      InfixAt(sub, s[1..], k - 1);
    }
  }

  lemma {:induction false} InfixFound(sub: string, s: string) returns (k: nat)
    requires IsInfix(sub, s)
    ensures k + |sub| <= |s| && s[k..k + |sub|] == sub
    decreases |s|
  {
    if sub <= s {
      k := 0;
    } else {
      var k' := InfixFound(sub, s[1..]);
      k := k' + 1;
      assert s[1..][k'..k' + |sub|] == s[k..k + |sub|];
    }
  }

  // ---------------------------------------------------------------- split

  /** `s.split(sep)` for a one-character separator. */
  function Split(s: string, sep: char): (parts: seq<string>)
    ensures |parts| >= 1
    decreases |s|
  {
    var k := IndexOf(s, sep);
    if k < 0 then [s] else [s[..k]] + Split(s[k + 1..], sep)
  }

  /** No part holds the separator. */
  lemma {:induction false} SplitPartsLackSep(s: string, sep: char)
    ensures forall i :: 0 <= i < |Split(s, sep)| ==> sep !in Split(s, sep)[i]
    decreases |s|
  {
    var k := IndexOf(s, sep);
    if k >= 0 {
      SplitPartsLackSep(s[k + 1..], sep);
    }
  }

  function Join(parts: seq<string>, sep: char): string
    requires |parts| >= 1
  {
    if |parts| == 1 then parts[0] else parts[0] + [sep] + Join(parts[1..], sep)
  }

  /** Splitting and joining again with the same separator gives the input back. */
  lemma {:induction false} JoinSplit(s: string, sep: char)
    ensures Join(Split(s, sep), sep) == s
    decreases |s|
  {
    var k := IndexOf(s, sep);
    if k >= 0 {
      var rest := Split(s[k + 1..], sep);
      SplitStep(s, sep, k);
      JoinStep(s[..k], rest, sep);
      JoinSplit(s[k + 1..], sep);
    }
  }

  lemma SplitStep(s: string, sep: char, k: int)
    requires k == IndexOf(s, sep) && k >= 0
    ensures Split(s, sep) == [s[..k]] + Split(s[k + 1..], sep)
    ensures s == s[..k] + [sep] + s[k + 1..]
  {
  }

  lemma JoinStep(p: string, rest: seq<string>, sep: char)
    requires |rest| >= 1
    ensures Join([p] + rest, sep) == p + [sep] + Join(rest, sep)
  {
    assert ([p] + rest)[1..] == rest;
  }

  /** The first separator after a part that lacks it is right after that part. */
  lemma IndexOfAfter(p: string, sep: char, rest: string)
    requires sep !in p
    ensures IndexOf(p + [sep] + rest, sep) == |p|
  {
    var s := p + [sep] + rest;
    assert s[|p|] == sep;
    assert s[..|p|] == p;
  }

  /** Joining parts that lack the separator and splitting again gives the parts back. */
  lemma {:induction false} SplitJoin(parts: seq<string>, sep: char)
    requires |parts| >= 1
    requires forall i :: 0 <= i < |parts| ==> sep !in parts[i]
    ensures Split(Join(parts, sep), sep) == parts
    decreases |parts|
  {
    if |parts| > 1 {
      var p := parts[0];
      var rest := Join(parts[1..], sep);
      var s := p + [sep] + rest;
      IndexOfAfter(p, sep, rest);
      assert s[..|p|] == p && s[|p| + 1..] == rest;
      SplitJoin(parts[1..], sep);
      assert parts == [p] + parts[1..];
    }
  }

  /** Split cuts at the first separator: the first piece is everything before it. */
  lemma SplitHead(s: string, sep: char)
    ensures Split(s, sep)[0] == (if sep in s then s[..IndexOf(s, sep)] else s)
  {
  }

  // ---------------------------------------------------------------- Set dedup

  predicate NoDuplicates<T(==)>(xs: seq<T>) {
    forall i, j :: 0 <= i < j < |xs| ==> xs[i] != xs[j]
  }

  /** `Array.from(new Set(xs))`: the first occurrence of each element, in order. */
  function Uniq<T(==,!new)>(xs: seq<T>): (r: seq<T>)
    ensures forall x :: x in r <==> x in xs
    ensures NoDuplicates(r)
    ensures NoDuplicates(xs) ==> r == xs
    decreases |xs|
  {
    if xs == [] then []
    else
      var init := xs[..|xs| - 1];
      var r := Uniq(init);
      assert forall x :: x in init ==> x in xs;
      if xs[|xs| - 1] in r then r
      else
        assert xs == init + [xs[|xs| - 1]];
        r + [xs[|xs| - 1]]
  }

  // ---------------------------------------------------------------- decimal numbers

  /** `Number(s)` for a string of ASCII digits (exact, where JavaScript rounds above 2^53). */
  function DecValue(s: string): nat
    requires forall i :: 0 <= i < |s| ==> IsDigit(s[i])
    decreases |s|
  {
    if s == [] then 0 else DecValue(s[..|s| - 1]) * 10 + DigitValue(s[|s| - 1])
  }

  /** `String(n)` for a natural number. */
  function NatToString(n: nat): (s: string)
    ensures |s| >= 1 && forall i :: 0 <= i < |s| ==> IsDigit(s[i])
    ensures DecValue(s) == n
    ensures s[0] == '0' ==> n == 0 && s == "0"
    decreases n
  {
    if n < 10 then [DigitChar(n)]
    else
      var p := NatToString(n / 10);
      var s := p + [DigitChar(n % 10)];
      assert s[..|s| - 1] == p;
      s
  }

  /** `String(i)` for any integer: a minus sign before the digits of a negative number. */
  function IntToString(i: int): string {
    if i < 0 then "-" + NatToString(-i) else NatToString(i)
  }

  /** A digit string without a leading zero is the canonical rendering of its value. */
  lemma {:induction false} NatToStringOfDecValue(s: string)
    requires IsDigits(s) && (s[0] == '0' ==> |s| == 1)
    ensures NatToString(DecValue(s)) == s
    decreases |s|
  {
    var n := DecValue(s);
    if |s| == 1 {
      assert s[..0] == [] && DecValue(s[..0]) == 0;
      assert n == DigitValue(s[0]);
      assert n < 10;
      assert NatToString(n) == [DigitChar(n)];
    } else {
      var p := s[..|s| - 1];
      DecValueAtLeast(p);
      NatToStringOfDecValue(p);
      assert n / 10 == DecValue(p) && n % 10 == DigitValue(s[|s| - 1]);
      assert s == p + [s[|s| - 1]];
    }
  }

  /** A digit string of length k that does not start with zero is worth at least 10^(k-1). */
  lemma {:induction false} DecValueAtLeast(s: string)
    requires IsDigits(s) && s[0] != '0'
    ensures DecValue(s) >= 1
    ensures |s| >= 2 ==> DecValue(s) >= 10
    decreases |s|
  {
    if |s| >= 2 {
      DecValueAtLeast(s[..|s| - 1]);
    }
  }

  /** The value of a digit string depends only on its leading digits and the last one. */
  lemma DecValueSnoc(s: string, c: char)
    requires forall i :: 0 <= i < |s| ==> IsDigit(s[i])
    requires IsDigit(c)
    ensures DecValue(s + [c]) == DecValue(s) * 10 + DigitValue(c)
  {
    assert (s + [c])[..|s|] == s;
  }

  /** A digit string of length k is worth less than 10^k. */
  lemma {:induction false} DecValueBelow(s: string)
    requires forall i :: 0 <= i < |s| ==> IsDigit(s[i])
    ensures DecValue(s) < Pow10(|s|)
    decreases |s|
  {
    if s != [] {
      DecValueBelow(s[..|s| - 1]);
    }
  }

  function Pow10(k: nat): (r: nat)
    ensures r >= 1
  {
    if k == 0 then 1 else 10 * Pow10(k - 1)
  }
}
