/** is-iban-valid/iban.js and is-iban-safe/iban.js: the IBAN check of ISO 13616 with the
    ISO/IEC 7064 MOD 97-10 checksum, a country registry of IBAN lengths and BBAN structures,
    and a small language for those structures (`4!a6!n8!c`). The two files hold the same
    checks; they differ only in how the registry is loaded, and here the registry is a
    parameter. */
module Iban {
  import opened Builtins

  // ---------------------------------------------------------------- MOD 97-10

  /** `a % m` as JavaScript computes it: the remainder takes the sign of the dividend. */
  function JsRem(a: int, m: nat): (r: int)
    requires m > 0
    ensures a >= 0 ==> 0 <= r < m
  {
    if a >= 0 then a % m else -((-a) % m)
  }

  /** The values `charCodeAt(j) - 48` of the characters of `v`. */
  function CodeDigits(v: string): (r: seq<int>)
    ensures |r| == |v| && forall j :: 0 <= j < |v| ==> r[j] == v[j] as int - 48
  {
    seq(|v|, j requires 0 <= j < |v| => v[j] as int - 48)
  }

  /** What the checksum feeds into the remainder for one character: the digit's value, or
      the characters of the decimal rendering of `code - 55` (so `A` gives 1 then 0). */
  function CharValues(c: char): seq<int> {
    if IsDigit(c) then [c as int - 48] else RenderedValues(c as int - 55)
  }

  /** The values `charCodeAt(j) - 48` of the decimal rendering of `v`: its digits, after
      -3 (the value of `-`) when `v` is negative. */
  function RenderedValues(v: int): seq<int> {
    if v < 0 then [-3] + DigitValues(-v) else DigitValues(v)
  }

  function DigitValues(v: nat): seq<int>
    decreases v
  {
    if v < 10 then [v] else DigitValues(v / 10) + [v % 10]
  }

  lemma {:induction false} DigitValuesCodes(v: nat)
    ensures DigitValues(v) == CodeDigits(NatToString(v))
    decreases v
  {
    if v >= 10 {
      DigitValuesCodes(v / 10);
      var p := NatToString(v / 10);
      var c := DigitChar(v % 10);
      assert NatToString(v) == p + [c];
      assert CodeDigits(p + [c]) == CodeDigits(p) + [c as int - 48];
    }
  }

  lemma MinusCodes(m: nat)
    ensures [-3] + DigitValues(m) == CodeDigits("-" + NatToString(m))
  {
    DigitValuesCodes(m);
    var t := NatToString(m);
    assert CodeDigits("-" + t) == [-3] + CodeDigits(t);
  }

  /** `RenderedValues` is what `charCodeAt(j) - 48` gives on `String(v)`. */
  lemma RenderedValuesCodes(v: int)
    ensures RenderedValues(v) == CodeDigits(IntToString(v))
  {
    if v < 0 {
      MinusCodes(-v);
    } else {
      DigitValuesCodes(v);
    }
  }

  /** The values fed in for the whole string, in order. */
  function Expand(s: string): seq<int>
    decreases |s|
  {
    if s == [] then [] else Expand(s[..|s| - 1]) + CharValues(s[|s| - 1])
  }

  /** One step of the running remainder, `rem = (rem * 10 + d) % 97`. */
  function RemStep(rem: int, d: int): int {
    JsRem(rem * 10 + d, 97)
  }

  /** The running remainder after feeding `vs` from the left, starting from 0. */
  function Remainder(vs: seq<int>): int
    decreases |vs|
  {
    if vs == [] then 0 else RemStep(Remainder(vs[..|vs| - 1]), vs[|vs| - 1])
  }

  lemma RemainderSnoc(vs: seq<int>, d: int)
    ensures Remainder(vs + [d]) == RemStep(Remainder(vs), d)
  {
    assert (vs + [d])[..|vs|] == vs;
  }

  lemma TakeSnoc<T>(xs: seq<T>, j: nat)
    requires j < |xs|
    ensures xs[..j + 1] == xs[..j] + [xs[j]]
  {
  }

  /** `iban.slice(4) + iban.slice(0, 4)`: the country code and check digits move to the end. */
  function Rearrange(iban: string): (r: string)
    ensures |r| == |iban|
  {
    if |iban| <= 4 then iban else iban[4..] + iban[..4]
  }

  /** Rearranging keeps every character. */
  lemma RearrangeKeepsChars(iban: string)
    ensures multiset(Rearrange(iban)) == multiset(iban)
  {
    if |iban| > 4 {
      assert iban == iban[..4] + iban[4..];
    }
  }

  /** The inner loop of `mod97Check`: feed the characters of `v` into the remainder. */
  method FeedDigits(rem0: int, v: string, ghost fed0: seq<int>) returns (rem: int, ghost fed: seq<int>)
    requires rem0 == Remainder(fed0)
    ensures fed == fed0 + CodeDigits(v) && rem == Remainder(fed)
  {
    rem, fed := rem0, fed0;
    ghost var cd := CodeDigits(v);
    for j := 0 to |v|
      invariant fed == fed0 + cd[..j]
      invariant rem == Remainder(fed)
    {
      var d := v[j] as int - 48;
      assert cd[j] == d;
      TakeSnoc(cd, j);
      RemainderSnoc(fed, d);
      rem := RemStep(rem, d);
      fed := fed + [d];
    }
    assert cd[..|v|] == cd;
  }

  /** One character of `mod97Check`: a digit is fed as its value, any other character as
      the digits of `charCodeAt(0) - 55`. */
  method FeedChar(rem0: int, ch: char, ghost fed0: seq<int>) returns (rem: int, ghost fed: seq<int>)
    requires rem0 == Remainder(fed0)
    ensures fed == fed0 + CharValues(ch) && rem == Remainder(fed)
  {
    var c := ch as int;
    if '0' <= ch <= '9' {
      var d := c - 48;
      RemainderSnoc(fed0, d);
      rem := RemStep(rem0, d);
      fed := fed0 + [d];
    } else {
      var v := IntToString(c - 55);
      RenderedValuesCodes(c - 55);
      rem, fed := FeedDigits(rem0, v, fed0);
    }
  }

  lemma ExpandSnoc(s: string, i: nat)
    requires i < |s|
    ensures Expand(s[..i + 1]) == Expand(s[..i]) + CharValues(s[i])
  {
    assert s[..i + 1][..i] == s[..i];
  }

  /** `mod97Check(iban)`: feed every character of the rearranged string into the running
      remainder, letters digit by digit, and compare the result with 1. */
  method Mod97Check(iban: string) returns (ok: bool)
    ensures ok <==> Remainder(Expand(Rearrange(iban))) == 1
  {
    var s := Rearrange(iban);
    var rem := 0;
    ghost var fed: seq<int> := [];
    for i := 0 to |s|
      invariant fed == Expand(s[..i])
      invariant rem == Remainder(fed)
    {
      ExpandSnoc(s, i);
      rem, fed := FeedChar(rem, s[i], fed);
    }
    assert s[..|s|] == s;
    ok := rem == 1;
  }

  /** The number whose decimal digits are `vs`, most significant first. */
  function Num(vs: seq<int>): int
    decreases |vs|
  {
    if vs == [] then 0 else Num(vs[..|vs| - 1]) * 10 + vs[|vs| - 1]
  }

  predicate Decimal(vs: seq<int>) {
    forall i :: 0 <= i < |vs| ==> 0 <= vs[i] <= 9
  }

  lemma ModTimesTen(a: int, d: int)
    requires a >= 0 && 0 <= d
    ensures ((a % 97) * 10 + d) % 97 == (a * 10 + d) % 97
  {
    var q := a / 97;
    assert a == q * 97 + a % 97;
    assert a * 10 + d == (q * 10) * 97 + ((a % 97) * 10 + d);
  }

  /** On decimal digits, the running remainder is the remainder of the number they spell,
      which is how MOD 97-10 is computed on numbers too long for machine integers. */
  lemma {:induction false} RemainderIsMod97(vs: seq<int>)
    requires Decimal(vs)
    ensures Num(vs) >= 0
    ensures Remainder(vs) == Num(vs) % 97
    decreases |vs|
  {
    if vs != [] {
      var init := vs[..|vs| - 1];
      RemainderIsMod97(init);
      ModTimesTen(Num(init), vs[|vs| - 1]);
    }
  }

  /** An IBAN character: an upper-case letter or a digit. */
  predicate IbanChar(c: char) {
    IsUpper(c) || IsDigit(c)
  }

  lemma {:induction false} DigitValuesNum(v: nat)
    ensures Decimal(DigitValues(v)) && Num(DigitValues(v)) == v
    decreases v
  {
    if v >= 10 {
      DigitValuesNum(v / 10);
      assert DigitValues(v)[..|DigitValues(v)| - 1] == DigitValues(v / 10);
    }
  }

  /** ISO 13616 turns a digit into itself and a letter into the two digits of 10 (`A`) up
      to 35 (`Z`); the checksum feeds exactly those digits. */
  lemma CharValuesOfIbanChar(c: char)
    requires IbanChar(c)
    ensures Decimal(CharValues(c))
    ensures Num(CharValues(c)) == if IsDigit(c) then c as int - 48 else c as int - 55
  {
    if !IsDigit(c) {
      DigitValuesNum(c as int - 55);
    } else {
      assert Num(CharValues(c)) == Num([]) * 10 + (c as int - 48);
    }
  }

  lemma NumConcatDecimal(a: seq<int>, b: seq<int>)
    requires Decimal(a) && Decimal(b)
    ensures Decimal(a + b)
  {
  }

  lemma {:induction false} ExpandDecimal(s: string)
    requires forall i :: 0 <= i < |s| ==> IbanChar(s[i])
    ensures Decimal(Expand(s))
    decreases |s|
  {
    if s != [] {
      ExpandDecimal(s[..|s| - 1]);
      CharValuesOfIbanChar(s[|s| - 1]);
      NumConcatDecimal(Expand(s[..|s| - 1]), CharValues(s[|s| - 1]));
    }
  }

  /** For an IBAN of digits and upper-case letters, `mod97Check` holds iff the number that
      ISO 13616 derives from the rearranged IBAN is 1 modulo 97. */
  lemma Mod97CheckIsIso7064(iban: string)
    requires forall i :: 0 <= i < |iban| ==> IbanChar(iban[i])
    ensures Decimal(Expand(Rearrange(iban)))
    ensures Remainder(Expand(Rearrange(iban))) == 1 <==> Num(Expand(Rearrange(iban))) % 97 == 1
  {
    var s := Rearrange(iban);
    RearrangeKeepsChars(iban);
    forall i | 0 <= i < |s|
      ensures IbanChar(s[i])
    {
      assert s[i] in multiset(s);
      assert s[i] in multiset(iban);
      var k :| 0 <= k < |iban| && iban[k] == s[i];
    }
    ExpandDecimal(s);
    RemainderIsMod97(Expand(s));
  }

  // ---------------------------------------------------------------- BBAN structures

  /** The classes of the structure language: `a` upper-case letters, `n` digits, `c` both. */
  datatype Kind = Letters | Digits | Alnum

  /** `<count>!<kind>`: exactly `count` characters of the class. */
  datatype Segment = Segment(count: nat, kind: Kind)

  /** The class letter, in either case. */
  function KindOf(c: char): Option<Kind> {
    if c == 'a' || c == 'A' then Some(Letters)
    else if c == 'n' || c == 'N' then Some(Digits)
    else if c == 'c' || c == 'C' then Some(Alnum)
    else None
  }

  /** `\d+!` matches at position `q`: a run of digits starts there and is followed by `!`. */
  predicate CountAhead(s: string, q: nat)
    decreases |s| - q
  {
    q + 1 < |s| && IsDigit(s[q]) && (s[q + 1] == '!' || CountAhead(s, q + 1))
  }

  /** A position where the structure is cut into segments. `split(/(?=\d+!)/)` cuts wherever
      the lookahead matches, also inside a count of two or more digits (`asWritten`); a
      count only starts where the previous character is not a digit. */
  predicate CutAt(s: string, q: nat, asWritten: bool)
    requires 0 < q < |s|
  {
    CountAhead(s, q) && (asWritten || !IsDigit(s[q - 1]))
  }

  /** The first cut at or after `q`, or `|s|` if there is none. */
  function NextCut(s: string, q: nat, asWritten: bool): (r: nat)
    requires 0 < q <= |s|
    ensures q <= r <= |s|
    ensures forall k :: q <= k < r ==> !CutAt(s, k, asWritten)
    ensures r < |s| ==> CutAt(s, r, asWritten)
    decreases |s| - q
  {
    if q == |s| || CutAt(s, q, asWritten) then q else NextCut(s, q + 1, asWritten)
  }

  /** The parts `split` returns: the string cut at every cut position (a string with no cut,
      the empty one included, is a single part). */
  function Pieces(s: string, asWritten: bool): (r: seq<string>)
    ensures |r| >= 1
    decreases |s|
  {
    if |s| <= 1 then [s]
    else
      var q := NextCut(s, 1, asWritten);
      if q == |s| then [s] else [s[..q]] + Pieces(s[q..], asWritten)
  }

  function Concat(parts: seq<string>): string {
    if parts == [] then [] else parts[0] + Concat(parts[1..])
  }

  /** Splitting loses nothing: the parts put back together give the string. */
  lemma {:induction false} PiecesConcat(s: string, asWritten: bool)
    ensures Concat(Pieces(s, asWritten)) == s
    decreases |s|
  {
    if |s| > 1 {
      var q := NextCut(s, 1, asWritten);
      if q < |s| {
        PiecesConcat(s[q..], asWritten);
        assert s == s[..q] + s[q..];
      }
    }
  }

  /** `t.match(/^(\d+)!([anc])$/i)`: digits, `!` and a class letter, giving the count as
      `Number` reads the digits and the class. */
  function ParseSegment(t: string): Option<Segment> {
    if |t| >= 3 && IsDigits(t[..|t| - 2]) && t[|t| - 2] == '!' && KindOf(t[|t| - 1]).Some? then
      Some(Segment(DecValue(t[..|t| - 2]), KindOf(t[|t| - 1]).value))
    else None
  }

  /** Every part parsed, or `None` as soon as one part does not parse. */
  function ParseAll(parts: seq<string>): Option<seq<Segment>>
    decreases |parts|
  {
    if parts == [] then Some([])
    else match ParseSegment(parts[0])
      case None => None
      case Some(g) => Prepend([g], ParseAll(parts[1..]))
  }

  function Prepend(gs: seq<Segment>, rest: Option<seq<Segment>>): Option<seq<Segment>> {
    match rest
    case None => None
    case Some(hs) => Some(gs + hs)
  }

  /** `struct.trim().replace(/\s+/g, "")`, which is the structure without any white space
      (`RemoveWsTrim`). */
  function Clean(structure: string): string {
    RemoveWs(structure)
  }

  /** The segments `bbanRegex` compiles into its pattern, or `None` for "no pattern": an
      empty structure, or a part that is not a segment. */
  function StructureWith(structure: string, asWritten: bool): Option<seq<Segment>> {
    if structure == [] then None else ParseAll(Pieces(Clean(structure), asWritten))
  }

  function BbanStructureAsWritten(structure: string): Option<seq<Segment>> {
    StructureWith(structure, true)
  }

  /** The structure as the language means it: cut before each count. */
  function BbanStructure(structure: string): Option<seq<Segment>> {
    StructureWith(structure, false)
  }

  /** `bbanRegex(struct)`: parse the parts one by one, appending the class of each to the
      pattern, and give up at the first part that is not a segment. The pattern
      `^[A-Z]{n}[0-9]{m}...$` is represented by its segments. */
  method BbanRegex(structure: string, asWritten: bool) returns (re: Option<seq<Segment>>)
    ensures re == StructureWith(structure, asWritten)
  {
    if structure == [] {
      return None;
    }
    var cleaned := RemoveWs(Trim(structure));
    RemoveWsTrim(structure);
    var parts := Pieces(cleaned, asWritten);
    assert StructureWith(structure, asWritten) == ParseAll(parts);
    var segs: seq<Segment> := [];
    assert parts[0..] == parts;
    PrependNothing(ParseAll(parts));
    for i := 0 to |parts|
      invariant ParseAll(parts) == Prepend(segs, ParseAll(parts[i..]))
    {
      var g := ParseSegment(parts[i]);
      assert parts[i..][0] == parts[i] && parts[i..][1..] == parts[i + 1..];
      if g.None? {
        assert ParseAll(parts[i..]) == None;
        return None;
      }
      PrependTwice(segs, [g.value], ParseAll(parts[i + 1..]));
      segs := segs + [g.value];
    }
    assert parts[|parts|..] == [];
    assert segs + [] == segs;
    re := Some(segs);
  }

  lemma PrependNothing(rest: Option<seq<Segment>>)
    ensures Prepend([], rest) == rest
  {
    if rest.Some? {
      assert [] + rest.value == rest.value;
    }
  }

  lemma PrependTwice(gs: seq<Segment>, hs: seq<Segment>, rest: Option<seq<Segment>>)
    ensures Prepend(gs, Prepend(hs, rest)) == Prepend(gs + hs, rest)
  {
    if rest.Some? {
      assert gs + (hs + rest.value) == (gs + hs) + rest.value;
    }
  }

  /** The character class of one segment, as `[A-Z]`, `[0-9]` and `[A-Z0-9]` (upper case only:
      the pattern has no `i` flag). */
  predicate InClass(k: Kind, c: char) {
    match k
    case Letters => IsUpper(c)
    case Digits => IsDigit(c)
    case Alnum => IsUpper(c) || IsDigit(c)
  }

  /** `new RegExp(pattern).test(s)` for the anchored pattern of `gs`. */
  predicate MatchesPattern(s: string, gs: seq<Segment>)
    decreases |gs|
  {
    if gs == [] then s == []
    else
      gs[0].count <= |s|
      && (forall j :: 0 <= j < gs[0].count ==> InClass(gs[0].kind, s[j]))
      && MatchesPattern(s[gs[0].count..], gs[1..])
  }

  function TotalCount(gs: seq<Segment>): nat {
    if gs == [] then 0 else gs[0].count + TotalCount(gs[1..])
  }

  /** Only strings exactly as long as the segments together match. */
  lemma {:induction false} MatchesPatternLength(s: string, gs: seq<Segment>)
    requires MatchesPattern(s, gs)
    ensures |s| == TotalCount(gs)
    decreases |gs|
  {
    if gs != [] {
      MatchesPatternLength(s[gs[0].count..], gs[1..]);
    }
  }

  /** The pattern of a concatenation of structures matches the concatenations of matches. */
  lemma {:induction false} MatchesPatternConcat(s: string, t: string, gs: seq<Segment>, hs: seq<Segment>)
    requires MatchesPattern(s, gs) && MatchesPattern(t, hs)
    ensures MatchesPattern(s + t, gs + hs)
    decreases |gs|
  {
    if gs == [] {
      assert s + t == t && gs + hs == hs;
    } else {
      var n := gs[0].count;
      MatchesPatternConcat(s[n..], t, gs[1..], hs);
      assert (gs + hs)[0] == gs[0] && (gs + hs)[1..] == gs[1..] + hs;
      assert (s + t)[n..] == s[n..] + t;
      assert forall j :: 0 <= j < n ==> (s + t)[j] == s[j];
    }
  }

  // ---- writing structures down, and reading them back

  function KindChar(k: Kind): char {
    match k
    case Letters => 'a'
    case Digits => 'n'
    case Alnum => 'c'
  }

  function RenderSegment(g: Segment): string {
    NatToString(g.count) + "!" + [KindChar(g.kind)]
  }

  /** A structure in the registry's notation, such as `4!a6!n8!c`. */
  function Render(gs: seq<Segment>): string {
    if gs == [] then [] else RenderSegment(gs[0]) + Render(gs[1..])
  }

  lemma ParseRenderSegment(g: Segment)
    ensures ParseSegment(RenderSegment(g)) == Some(g)
  {
    var t := RenderSegment(g);
    assert t[..|t| - 2] == NatToString(g.count);
  }

  predicate StructureChar(c: char) {
    IsDigit(c) || c == '!' || c == 'a' || c == 'n' || c == 'c'
  }

  lemma {:induction false} RenderChars(gs: seq<Segment>)
    ensures forall i :: 0 <= i < |Render(gs)| ==> StructureChar(Render(gs)[i])
    decreases |gs|
  {
    if gs != [] {
      RenderChars(gs[1..]);
    }
  }

  /** A structure written without white space is left as it is by cleaning. */
  lemma CleanPlain(s: string)
    requires forall i :: 0 <= i < |s| ==> StructureChar(s[i])
    ensures Clean(s) == s
  {
    StructureCharsNotWs(s);
    FilterPlain(s);
  }

  lemma FilterPlain(s: string)
    requires forall i :: 0 <= i < |s| ==> NotWs(s[i])
    ensures RemoveWs(s) == s
  {
    FilterKeepsAll(s, NotWs);
  }

  lemma StructureCharsNotWs(s: string)
    requires forall i :: 0 <= i < |s| ==> StructureChar(s[i])
    ensures forall i :: 0 <= i < |s| ==> NotWs(s[i])
  {
    forall i | 0 <= i < |s|
      ensures NotWs(s[i])
    {
      assert StructureChar(s[i]);
    }
  }

  lemma CleanRender(gs: seq<Segment>)
    ensures Clean(Render(gs)) == Render(gs)
  {
    RenderChars(gs);
    CleanPlain(Render(gs));
  }

  /** A run of digits followed by `!` from `k` on is where `\d+!` matches. */
  lemma {:induction false} CountAheadAt(s: string, k: nat, m: nat)
    requires k < m < |s| && s[m] == '!'
    requires forall j :: k <= j < m ==> IsDigit(s[j])
    ensures CountAhead(s, k)
    decreases m - k
  {
    if k + 1 < m {
      CountAheadAt(s, k + 1, m);
    }
  }

  lemma NextCutIs(s: string, q: nat, asWritten: bool, c: nat)
    requires 0 < q <= c <= |s|
    requires forall k :: q <= k < c ==> !CutAt(s, k, asWritten)
    requires c == |s| || CutAt(s, c, asWritten)
    ensures NextCut(s, q, asWritten) == c
  {
  }

  /** No cut falls inside a rendered segment: its count is one run of digits. */
  lemma NoCutInSegment(g: Segment, t: string, k: nat)
    requires 1 <= k < |RenderSegment(g)|
    ensures !CutAt(RenderSegment(g) + t, k, false)
  {
    var s := RenderSegment(g) + t;
    var d := NatToString(g.count);
    if k < |d| {
      assert s[k - 1] == d[k - 1];
    } else {
      assert s[k] == '!' || s[k] == KindChar(g.kind);
    }
  }

  /** A cut falls where the next rendered segment starts. */
  lemma CutAfterSegment(g: Segment, h: Segment, t: string)
    ensures |RenderSegment(g)| < |RenderSegment(g) + (RenderSegment(h) + t)|
    ensures CutAt(RenderSegment(g) + (RenderSegment(h) + t), |RenderSegment(g)|, false)
  {
    var u := RenderSegment(g);
    var s := u + (RenderSegment(h) + t);
    var d2 := NatToString(h.count);
    assert s[|u| - 1] == KindChar(g.kind);
    assert forall j :: |u| <= j < |u| + |d2| ==> s[j] == d2[j - |u|];
    assert s[|u| + |d2|] == '!';
    CountAheadAt(s, |u|, |u| + |d2|);
  }

  /** Inside a rendered segment followed by more text, the first cut is where the next
      segment starts. */
  lemma PiecesRenderStep(gs: seq<Segment>)
    requires gs != []
    ensures Pieces(Render(gs), false) ==
      if |gs| == 1 then [RenderSegment(gs[0])]
      else [RenderSegment(gs[0])] + Pieces(Render(gs[1..]), false)
  {
    var u := RenderSegment(gs[0]);
    var t := Render(gs[1..]);
    var s := u + t;
    assert s == Render(gs);
    forall k | 1 <= k < |u|
      ensures !CutAt(s, k, false)
    {
      NoCutInSegment(gs[0], t, k);
    }
    if |gs| == 1 {
      assert t == [] && s == u;
      NextCutIs(s, 1, false, |s|);
    } else {
      CutAfterSegment(gs[0], gs[1], Render(gs[2..]));
      NextCutIs(s, 1, false, |u|);
      assert s[..|u|] == u && s[|u|..] == t;
    }
  }

  function RenderedPieces(gs: seq<Segment>): (r: seq<string>)
    ensures |r| == |gs|
  {
    seq(|gs|, i requires 0 <= i < |gs| => RenderSegment(gs[i]))
  }

  lemma {:induction false} PiecesRender(gs: seq<Segment>)
    requires gs != []
    ensures Pieces(Render(gs), false) == RenderedPieces(gs)
    decreases |gs|
  {
    PiecesRenderStep(gs);
    if |gs| > 1 {
      PiecesRender(gs[1..]);
      assert RenderedPieces(gs) == [RenderSegment(gs[0])] + RenderedPieces(gs[1..]);
    }
  }

  lemma {:induction false} ParseRendered(gs: seq<Segment>)
    ensures ParseAll(RenderedPieces(gs)) == Some(gs)
    decreases |gs|
  {
    if gs != [] {
      ParseRenderSegment(gs[0]);
      ParseRendered(gs[1..]);
      assert RenderedPieces(gs)[1..] == RenderedPieces(gs[1..]);
      assert [gs[0]] + gs[1..] == gs;
    }
  }

  lemma RoundTripPieces(gs: seq<Segment>)
    requires gs != []
    ensures ParseAll(Pieces(Render(gs), false)) == Some(gs)
  {
    PiecesRender(gs);
    ParseRendered(gs);
  }

  lemma RenderNonEmpty(gs: seq<Segment>)
    requires gs != []
    ensures Render(gs) != []
  {
    assert |RenderSegment(gs[0])| >= 3;
  }

  /** Reading a written-down structure gives back its segments. */
  lemma StructureRoundTrip(gs: seq<Segment>)
    requires gs != []
    ensures BbanStructure(Render(gs)) == Some(gs)
  {
    RenderNonEmpty(gs);
    CleanRender(gs);
    RoundTripPieces(gs);
  }

  /** With every count one digit long, the lookahead split cuts exactly where counts start. */
  lemma {:induction false} PiecesAgree(s: string)
    requires forall q :: 0 < q < |s| ==> !(IsDigit(s[q - 1]) && IsDigit(s[q]))
    ensures Pieces(s, true) == Pieces(s, false)
    decreases |s|
  {
    if |s| > 1 {
      assert forall q :: 0 < q < |s| ==> (CutAt(s, q, true) <==> CutAt(s, q, false));
      var q := NextCut(s, 1, false);
      NextCutIs(s, 1, true, q);
      if q < |s| {
        PiecesAgree(s[q..]);
      }
    }
  }

  /** `bbanRegex("10!n")` gives no pattern: the split cuts between `1` and `0!n`, and `1` is
      not a segment. Read as intended, it is ten digits. */
  lemma MultiDigitCountAsWritten()
    ensures BbanStructureAsWritten("10!n") == None
    ensures BbanStructure("10!n") == Some([Segment(10, Digits)])
  {
    TenDigitsSplitAsWritten();
    TenDigitsIntended();
  }

  lemma TenDigitsSplitAsWritten()
    ensures BbanStructureAsWritten("10!n") == None
  {
    var s: string := "10!n";
    assert forall i :: 0 <= i < |s| ==> StructureChar(s[i]);
    CleanPlain(s);
    assert CountAhead(s, 1);
    assert NextCut(s, 1, true) == 1;
    assert Pieces(s, true)[0] == "1";
  }

  lemma TenDigitsIntended()
    ensures BbanStructure("10!n") == Some([Segment(10, Digits)])
  {
    var s: string := "10!n";
    assert forall i :: 0 <= i < |s| ==> StructureChar(s[i]);
    CleanPlain(s);
    assert !CutAt(s, 1, false) && !CutAt(s, 2, false) && !CutAt(s, 3, false);
    NextCutIs(s, 1, false, 4);
    assert Pieces(s, false) == [s];
    TenDigitsSegment();
    assert ParseAll([s]) == Prepend([Segment(10, Digits)], ParseAll([]));
    assert [Segment(10, Digits)] + [] == [Segment(10, Digits)];
  }

  lemma TenDigitsSegment()
    ensures ParseSegment("10!n") == Some(Segment(10, Digits))
  {
    var s: string := "10!n";
    assert s[..|s| - 2] == "10";
    assert DecValue("10") == 10 by {
      assert DecValue("1") == 1;
      assert "10"[..1] == "1";
    }
    assert KindOf(s[3]) == Some(Digits);
  }

  // ---------------------------------------------------------------- isIbanSafe

  /** A registry entry for the BBAN: its length and structure, 0 and "" where absent. */
  datatype BbanSpec = BbanSpec(length: int, structure: string)

  /** `iban_length_by_code` and `bban_by_code`, keyed by country code; a length of 0 reads
      as absent, as the falsy value it is. */
  datatype Registry = Registry(lengths: map<string, int>, bban: map<string, BbanSpec>)

  datatype IbanOptions = IbanOptions(
    allowCountries: Option<seq<string>>,
    blockCountries: Option<seq<string>>,
    strictCase: bool,
    maxLength: int,
    minLength: int,
    strictStructure: bool)

  function DefaultIbanOptions(): IbanOptions {
    IbanOptions(None, None, false, 34, 15, true)
  }

  datatype IbanIssue =
    | Empty | LowercaseDisallowed | NonAlphanumeric | TooShort | TooLong | BadBasicFormat
    | CountryNotInRegistry | BadLengthForCountry | BadCheckDigits | CountryNotAllowed
    | CountryBlocked | ChecksumFailed | BbanLengthMismatch | BbanStructureMismatch

  function IssueCode(i: IbanIssue): string {
    match i
    case Empty => "empty"
    case LowercaseDisallowed => "lowercase_disallowed"
    case NonAlphanumeric => "non_alphanumeric"
    case TooShort => "too_short"
    case TooLong => "too_long"
    case BadBasicFormat => "bad_basic_format"
    case CountryNotInRegistry => "country_not_in_registry"
    case BadLengthForCountry => "bad_length_for_country"
    case BadCheckDigits => "bad_check_digits"
    case CountryNotAllowed => "country_not_allowed"
    case CountryBlocked => "country_blocked"
    case ChecksumFailed => "checksum_failed"
    case BbanLengthMismatch => "bban_length_mismatch"
    case BbanStructureMismatch => "bban_structure_mismatch"
  }

  datatype IbanResult = IbanResult(ok: bool, normalized: Option<string>, issues: seq<IbanIssue>)

  /** `raw.replace(/\s+/g, "").toUpperCase()` */
  function Normalize(raw: string): string {
    UpperStr(RemoveWs(raw))
  }

  /** `slice(0, 2)`, `slice(2, 4)` and `slice(4)`. */
  function CountryCode(n: string): string {
    if |n| <= 2 then n else n[..2]
  }

  function CheckDigitsOf(n: string): string {
    if |n| <= 2 then [] else if |n| <= 4 then n[2..] else n[2..4]
  }

  function BbanOf(n: string): string {
    if |n| <= 4 then [] else n[4..]
  }

  /** `o.strictCase && /[a-z]/.test(raw)` */
  predicate LowercaseFound(o: IbanOptions, raw: string) {
    o.strictCase && exists i :: 0 <= i < |raw| && IsLower(raw[i])
  }

  /** `/^[A-Za-z0-9\s]+$/.test(raw)` */
  predicate AlnumOrWs(raw: string) {
    |raw| > 0 && forall i :: 0 <= i < |raw| ==> IsAlnum(raw[i]) || IsWs(raw[i])
  }

  /** `/^[A-Z]{2}\d{2}[A-Z0-9]+$/.test(n)` */
  predicate BasicFormat(n: string) {
    && |n| >= 5 && IsUpper(n[0]) && IsUpper(n[1]) && IsDigit(n[2]) && IsDigit(n[3])
    && forall i :: 4 <= i < |n| ==> IbanChar(n[i])
  }

  /** `COUNTRY_LENGTHS[cc]` is truthy. */
  predicate Known(reg: Registry, cc: string) {
    cc in reg.lengths && reg.lengths[cc] != 0
  }

  predicate WrongLengthForCountry(reg: Registry, n: string) {
    Known(reg, CountryCode(n)) && |n| != reg.lengths[CountryCode(n)]
  }

  /** `/^\d{2}$/.test(cd)` */
  predicate CheckDigitsOk(cd: string) {
    |cd| == 2 && IsDigit(cd[0]) && IsDigit(cd[1])
  }

  predicate NotAllowed(o: IbanOptions, cc: string) {
    o.allowCountries.Some? && cc !in o.allowCountries.value
  }

  predicate Blocked(o: IbanOptions, cc: string) {
    o.blockCountries.Some? && cc in o.blockCountries.value
  }

  predicate Mod97Valid(n: string) {
    Remainder(Expand(Rearrange(n))) == 1
  }

  /** The BBAN checks run: strict structure, a known country and a structure for it. */
  predicate Structured(o: IbanOptions, reg: Registry, cc: string) {
    o.strictStructure && Known(reg, cc) && cc in reg.bban && reg.bban[cc].structure != []
  }

  predicate BbanLengthWrong(o: IbanOptions, reg: Registry, n: string) {
    var cc := CountryCode(n);
    Structured(o, reg, cc) && reg.bban[cc].length != 0 && |BbanOf(n)| != reg.bban[cc].length
  }

  predicate BbanShapeWrong(o: IbanOptions, reg: Registry, n: string, asWritten: bool) {
    var cc := CountryCode(n);
    && Structured(o, reg, cc)
    && StructureWith(reg.bban[cc].structure, asWritten).Some?
    && !MatchesPattern(BbanOf(n), StructureWith(reg.bban[cc].structure, asWritten).value)
  }

  /** As written, a registry structure with a two-digit count such as `10!n` compiles to no
      pattern, so the structure check is skipped: a BBAN of one letter passes it, while the
      intended ten-digit pattern rejects it. */
  lemma StructureCheckSkippedAsWritten(n: string, reg: Registry)
    requires reg == Registry(map["XX" := 5], map["XX" := BbanSpec(0, "10!n")])
    requires n == "XX00A"
    ensures !BbanShapeWrong(DefaultIbanOptions(), reg, n, true)
    ensures BbanShapeWrong(DefaultIbanOptions(), reg, n, false)
  {
    MultiDigitCountAsWritten();
    assert CountryCode(n) == "XX";
    assert BbanOf(n) == "A";
    assert Structured(DefaultIbanOptions(), reg, "XX");
  }

  /** One issue, pushed when its condition holds. */
  function If(cond: bool, issue: IbanIssue): seq<IbanIssue> {
    if cond then [issue] else []
  }

  /** The issues `isIbanSafe` pushes for a non-empty trimmed input, in order. */
  function IbanIssues(raw: string, o: IbanOptions, reg: Registry, asWritten: bool): seq<IbanIssue> {
    If(LowercaseFound(o, raw), LowercaseDisallowed)
    + If(!AlnumOrWs(raw), NonAlphanumeric)
    + NormalizedIssues(Normalize(raw), o, reg, asWritten)
  }

  /** The issues about the normalized IBAN, in the order their checks run. */
  const NormalizedOrder: seq<IbanIssue> := [
    TooShort, TooLong, BadBasicFormat, CountryNotInRegistry, BadLengthForCountry,
    BadCheckDigits, CountryNotAllowed, CountryBlocked, ChecksumFailed,
    BbanLengthMismatch, BbanStructureMismatch]

  /** Which of those checks fail on the normalized IBAN `n`, in the same order. */
  function Failures(n: string, o: IbanOptions, reg: Registry, asWritten: bool): (r: seq<bool>)
    ensures |r| == |NormalizedOrder|
  {
    FormatFailures(n, o, reg) + [!Mod97Valid(n), BbanLengthWrong(o, reg, n), BbanShapeWrong(o, reg, n, asWritten)]
  }

  /** The first eight of them: length, format, country, check digits and the lists. */
  function FormatFailures(n: string, o: IbanOptions, reg: Registry): (r: seq<bool>)
    ensures |r| == 8
  {
    var cc := CountryCode(n);
    [|n| < o.minLength, |n| > o.maxLength, !BasicFormat(n), !Known(reg, cc),
     WrongLengthForCountry(reg, n), !CheckDigitsOk(CheckDigitsOf(n)), NotAllowed(o, cc),
     Blocked(o, cc)]
  }

  /** The issues about the normalized IBAN `n`, in the order they are pushed. */
  function NormalizedIssues(n: string, o: IbanOptions, reg: Registry, asWritten: bool): seq<IbanIssue> {
    Flag(Failures(n, o, reg, asWritten), NormalizedOrder)
  }

  /** The issues of `order` whose check in `fails` failed, in order. */
  function Flag(fails: seq<bool>, order: seq<IbanIssue>): seq<IbanIssue>
    requires |fails| == |order|
    decreases |order|
  {
    if order == [] then []
    else Flag(fails[..|fails| - 1], order[..|order| - 1]) + If(fails[|fails| - 1], order[|order| - 1])
  }

  /** `isIbanSafe(input, opts)` with the registry as a parameter: an input that is empty
      once trimmed gives the single issue `empty`; otherwise every check pushes its issue,
      the result is ok when none was pushed, and carries the normalized IBAN only then.
      `asWritten` compiles the registry's BBAN structures with the split as written, which
      cuts inside multi-digit counts; without it, with the intended split. */
  method IsIbanSafe(input: string, o: IbanOptions, reg: Registry, asWritten: bool) returns (r: IbanResult)
    ensures Trim(input) == [] ==> r == IbanResult(false, None, [Empty])
    ensures Trim(input) != [] ==>
      && r.issues == IbanIssues(Trim(input), o, reg, asWritten)
      && (r.ok <==> r.issues == [])
      && r.normalized == (if r.ok then Some(Normalize(Trim(input))) else None)
  {
    var raw := Trim(input);
    if raw == [] {
      return IbanResult(false, None, [Empty]);
    }
    var issues := If(LowercaseFound(o, raw), LowercaseDisallowed);
    issues := issues + If(!AlnumOrWs(raw), NonAlphanumeric);
    var n := Normalize(raw);
    var rest := CheckNormalized(n, o, reg, asWritten);
    NormalizedInOrder(n, o, reg, asWritten);
    HeadBeforeTail(LowercaseFound(o, raw), !AlnumOrWs(raw), rest);
    issues := issues + rest;
    var ok := |issues| == 0;
    r := IbanResult(ok, if ok then Some(n) else None, Uniq(issues));
  }

  /** The checks of `isIbanSafe` on the normalized IBAN, pushing in order. */
  method CheckNormalized(n: string, o: IbanOptions, reg: Registry, asWritten: bool) returns (issues: seq<IbanIssue>)
    ensures issues == NormalizedIssues(n, o, reg, asWritten)
  {
    issues := CheckFormat(n, o, reg);
    var checksum := Mod97Check(n);
    issues := issues + If(!checksum, ChecksumFailed);
    var lengthWrong, shapeWrong := CheckBban(n, o, reg, asWritten);
    issues := issues + If(lengthWrong, BbanLengthMismatch);
    issues := issues + If(shapeWrong, BbanStructureMismatch);
    FlagLastThree(FormatFailures(n, o, reg), !checksum, lengthWrong, shapeWrong);
  }

  /** The first eight checks of `isIbanSafe` on the normalized IBAN, pushing in order. */
  method CheckFormat(n: string, o: IbanOptions, reg: Registry) returns (issues: seq<IbanIssue>)
    ensures issues == Flag(FormatFailures(n, o, reg), NormalizedOrder[..8])
  {
    var tooShort, tooLong, badFormat := |n| < o.minLength, |n| > o.maxLength, !BasicFormat(n);
    issues := If(tooShort, TooShort);
    issues := issues + If(tooLong, TooLong);
    issues := issues + If(badFormat, BadBasicFormat);
    var cc := CountryCode(n);
    var cd := CheckDigitsOf(n);
    var unknown, wrongLength := !Known(reg, cc), WrongLengthForCountry(reg, n);
    issues := issues + If(unknown, CountryNotInRegistry);
    issues := issues + If(wrongLength, BadLengthForCountry);
    var badDigits, notAllowed, blocked := !CheckDigitsOk(cd), NotAllowed(o, cc), Blocked(o, cc);
    issues := issues + If(badDigits, BadCheckDigits);
    issues := issues + If(notAllowed, CountryNotAllowed);
    issues := issues + If(blocked, CountryBlocked);
    FlagFirstEight(tooShort, tooLong, badFormat, unknown, wrongLength, badDigits, notAllowed, blocked);
  }

  /** The BBAN part of `isIbanSafe`: it runs only for a structured country, and compiles
      the structure only then. */
  method CheckBban(n: string, o: IbanOptions, reg: Registry, asWritten: bool) returns (lengthWrong: bool, shapeWrong: bool)
    ensures lengthWrong == BbanLengthWrong(o, reg, n)
    ensures shapeWrong == BbanShapeWrong(o, reg, n, asWritten)
  {
    lengthWrong, shapeWrong := false, false;
    var cc := CountryCode(n);
    if Structured(o, reg, cc) {
      var bban := BbanOf(n);
      var spec := reg.bban[cc];
      lengthWrong := spec.length != 0 && |bban| != spec.length;
      var re := BbanRegex(spec.structure, asWritten);
      shapeWrong := re.Some? && !MatchesPattern(bban, re.value);
    }
  }

  // ---- properties of the issues

  function IssueRank(i: IbanIssue): nat {
    match i
    case Empty => 0
    case LowercaseDisallowed => 1
    case NonAlphanumeric => 2
    case TooShort => 3
    case TooLong => 4
    case BadBasicFormat => 5
    case CountryNotInRegistry => 6
    case BadLengthForCountry => 7
    case BadCheckDigits => 8
    case CountryNotAllowed => 9
    case CountryBlocked => 10
    case ChecksumFailed => 11
    case BbanLengthMismatch => 12
    case BbanStructureMismatch => 13
  }

  predicate RanksIncrease(xs: seq<IbanIssue>) {
    forall i, j :: 0 <= i < j < |xs| ==> IssueRank(xs[i]) < IssueRank(xs[j])
  }

  predicate RanksBelow(xs: seq<IbanIssue>, n: nat) {
    forall y :: y in xs ==> IssueRank(y) < n
  }

  lemma RanksIncreaseSnoc(xs: seq<IbanIssue>, cond: bool, x: IbanIssue)
    requires RanksIncrease(xs) && RanksBelow(xs, IssueRank(x))
    ensures RanksIncrease(xs + If(cond, x)) && RanksBelow(xs + If(cond, x), IssueRank(x) + 1)
  {
  }

  predicate RanksFrom(xs: seq<IbanIssue>, n: nat) {
    forall y :: y in xs ==> n <= IssueRank(y)
  }

  lemma RanksIncreaseAppend(xs: seq<IbanIssue>, ys: seq<IbanIssue>, n: nat)
    requires RanksIncrease(xs) && RanksBelow(xs, n)
    requires RanksIncrease(ys) && RanksFrom(ys, n)
    ensures RanksIncrease(xs + ys)
  {
    forall i, j | 0 <= i < j < |xs + ys|
      ensures IssueRank((xs + ys)[i]) < IssueRank((xs + ys)[j])
    {
      if j < |xs| {
      } else if i >= |xs| {
        assert (xs + ys)[i] == ys[i - |xs|] && (xs + ys)[j] == ys[j - |xs|];
      } else {
        assert (xs + ys)[i] in xs && (xs + ys)[j] in ys;
      }
    }
  }

  lemma RanksIncreaseDistinct(xs: seq<IbanIssue>)
    requires RanksIncrease(xs)
    ensures NoDuplicates(xs)
  {
  }

  lemma RanksFromSnoc(xs: seq<IbanIssue>, cond: bool, x: IbanIssue, n: nat)
    requires RanksFrom(xs, n) && n <= IssueRank(x)
    ensures RanksFrom(xs + If(cond, x), n)
  {
  }

  lemma HeadBeforeTail(c1: bool, c2: bool, t: seq<IbanIssue>)
    requires RanksIncrease(t) && RanksFrom(t, 3)
    ensures NoDuplicates(If(c1, LowercaseDisallowed) + If(c2, NonAlphanumeric) + t)
  {
    var head := If(c1, LowercaseDisallowed) + If(c2, NonAlphanumeric);
    RanksIncreaseSnoc(If(c1, LowercaseDisallowed), c2, NonAlphanumeric);
    RanksIncreaseAppend(head, t, 3);
    RanksIncreaseDistinct(head + t);
  }

  lemma NormalizedOrderRanks()
    ensures RanksIncrease(NormalizedOrder) && RanksFrom(NormalizedOrder, 3)
  {
    assert forall i :: 0 <= i < |NormalizedOrder| ==> IssueRank(NormalizedOrder[i]) == i + 3;
  }

  /** The issues about the normalized IBAN are pushed in a fixed order, after those about
      the trimmed input. */
  lemma NormalizedInOrder(n: string, o: IbanOptions, reg: Registry, asWritten: bool)
    ensures RanksIncrease(NormalizedIssues(n, o, reg, asWritten)) && RanksFrom(NormalizedIssues(n, o, reg, asWritten), 3)
  {
    NormalizedOrderRanks();
    FlagInOrder(Failures(n, o, reg, asWritten), NormalizedOrder, 3);
  }

  /** One more check, pushed after the others. */
  lemma FlagSnoc(fails: seq<bool>, order: seq<IbanIssue>, c: bool, x: IbanIssue)
    requires |fails| == |order|
    ensures Flag(fails + [c], order + [x]) == Flag(fails, order) + If(c, x)
  {
    assert (fails + [c])[..|fails|] == fails;
    assert (order + [x])[..|order|] == order;
  }

  /** Two more checks, pushed after the others. */
  lemma FlagTwo(fails: seq<bool>, order: seq<IbanIssue>, a: bool, b: bool, x: IbanIssue, y: IbanIssue)
    requires |fails| == |order|
    ensures Flag(fails + [a, b], order + [x, y]) == Flag(fails, order) + If(a, x) + If(b, y)
  {
    FlagSnoc(fails, order, a, x);
    FlagSnoc(fails + [a], order + [x], b, y);
    assert fails + [a, b] == fails + [a] + [b];
    assert order + [x, y] == order + [x] + [y];
  }

  /** The first four checks, pushed one after the other. */
  lemma FlagFirstFour(c0: bool, c1: bool, c2: bool, c3: bool)
    ensures Flag([c0, c1, c2, c3], NormalizedOrder[..4])
      == If(c0, TooShort) + If(c1, TooLong) + If(c2, BadBasicFormat) + If(c3, CountryNotInRegistry)
  {
    FlagTwo([], [], c0, c1, TooShort, TooLong);
    assert [] + [c0, c1] == [c0, c1] && [] + [TooShort, TooLong] == [TooShort, TooLong];
    FlagTwo([c0, c1], [TooShort, TooLong], c2, c3, BadBasicFormat, CountryNotInRegistry);
    assert [c0, c1] + [c2, c3] == [c0, c1, c2, c3];
    assert [TooShort, TooLong] + [BadBasicFormat, CountryNotInRegistry] == NormalizedOrder[..4];
  }

  /** The next four checks, pushed after the first four. */
  lemma FlagNextFour(front: seq<bool>, c4: bool, c5: bool, c6: bool, c7: bool)
    requires |front| == 4
    ensures Flag(front + [c4, c5, c6, c7], NormalizedOrder[..8])
      == Flag(front, NormalizedOrder[..4]) + If(c4, BadLengthForCountry) + If(c5, BadCheckDigits)
         + If(c6, CountryNotAllowed) + If(c7, CountryBlocked)
  {
    var o6 := NormalizedOrder[..4] + [BadLengthForCountry, BadCheckDigits];
    FlagTwo(front, NormalizedOrder[..4], c4, c5, BadLengthForCountry, BadCheckDigits);
    FlagTwo(front + [c4, c5], o6, c6, c7, CountryNotAllowed, CountryBlocked);
    assert front + [c4, c5] + [c6, c7] == front + [c4, c5, c6, c7];
    assert o6 + [CountryNotAllowed, CountryBlocked] == NormalizedOrder[..8];
  }

  /** The first eight checks, pushed one after the other. */
  lemma FlagFirstEight(c0: bool, c1: bool, c2: bool, c3: bool, c4: bool, c5: bool, c6: bool, c7: bool)
    ensures Flag([c0, c1, c2, c3, c4, c5, c6, c7], NormalizedOrder[..8])
      == If(c0, TooShort) + If(c1, TooLong) + If(c2, BadBasicFormat)
         + If(c3, CountryNotInRegistry) + If(c4, BadLengthForCountry) + If(c5, BadCheckDigits)
         + If(c6, CountryNotAllowed) + If(c7, CountryBlocked)
  {
    FlagFirstFour(c0, c1, c2, c3);
    FlagNextFour([c0, c1, c2, c3], c4, c5, c6, c7);
    assert [c0, c1, c2, c3] + [c4, c5, c6, c7] == [c0, c1, c2, c3, c4, c5, c6, c7];
  }

  /** The last three checks, pushed after the first eight. */
  lemma FlagLastThree(front: seq<bool>, a: bool, b: bool, c: bool)
    requires |front| == 8
    ensures Flag(front + [a, b, c], NormalizedOrder)
      == Flag(front, NormalizedOrder[..8]) + If(a, ChecksumFailed) + If(b, BbanLengthMismatch)
         + If(c, BbanStructureMismatch)
  {
    var fs := front + [a, b, c];
    assert fs[..10][..9][..8] == front;
    assert NormalizedOrder[..10][..9][..8] == NormalizedOrder[..8];
  }

  /** Flagging keeps the order of `order`, so the ranks still increase. */
  lemma {:induction false} FlagInOrder(fails: seq<bool>, order: seq<IbanIssue>, k: nat)
    requires |fails| == |order|
    requires RanksIncrease(order) && RanksFrom(order, k)
    ensures RanksIncrease(Flag(fails, order)) && RanksFrom(Flag(fails, order), k)
    ensures forall y :: y in Flag(fails, order) ==> y in order
    decreases |order|
  {
    if order != [] {
      var m := |order| - 1;
      var init := order[..m];
      assert RanksIncrease(init) && RanksFrom(init, k);
      FlagInOrder(fails[..m], init, k);
      var f := Flag(fails[..m], init);
      assert RanksBelow(f, IssueRank(order[m])) by {
        forall y | y in f ensures IssueRank(y) < IssueRank(order[m]) {
          var i :| 0 <= i < m && init[i] == y;
        }
      }
      RanksIncreaseSnoc(f, fails[m], order[m]);
      RanksFromSnoc(f, fails[m], order[m], k);
    }
  }

  /** With distinct issues in `order`, the issue at position `i` is flagged exactly when
      its check failed. */
  lemma {:induction false} FlagMember(fails: seq<bool>, order: seq<IbanIssue>, i: nat)
    requires |fails| == |order| && i < |order|
    requires NoDuplicates(order)
    ensures order[i] in Flag(fails, order) <==> fails[i]
    decreases |order|
  {
    var m := |order| - 1;
    var init := order[..m];
    FlagInOrderMembers(fails[..m], init);
    if i < m {
      FlagMember(fails[..m], init, i);
      assert order[i] != order[m];
    } else {
      assert order[m] !in init;
    }
  }

  lemma {:induction false} FlagInOrderMembers(fails: seq<bool>, order: seq<IbanIssue>)
    requires |fails| == |order|
    ensures forall y :: y in Flag(fails, order) ==> y in order
    decreases |order|
  {
    if order != [] {
      var m := |order| - 1;
      FlagInOrderMembers(fails[..m], order[..m]);
    }
  }

  /** Nothing is flagged exactly when every check passed. */
  lemma {:induction false} FlagEmpty(fails: seq<bool>, order: seq<IbanIssue>)
    requires |fails| == |order|
    ensures Flag(fails, order) == [] <==> forall i :: 0 <= i < |fails| ==> !fails[i]
    decreases |order|
  {
    if order != [] {
      var m := |order| - 1;
      FlagEmpty(fails[..m], order[..m]);
      assert forall i :: 0 <= i < m ==> fails[..m][i] == fails[i];
    }
  }

  /** The issue at position `i` of the order is raised exactly when its check fails. */
  lemma NormalizedMember(n: string, o: IbanOptions, reg: Registry, asWritten: bool, i: nat)
    requires i < |NormalizedOrder|
    ensures NormalizedOrder[i] in NormalizedIssues(n, o, reg, asWritten) <==> Failures(n, o, reg, asWritten)[i]
  {
    NormalizedOrderRanks();
    FlagMember(Failures(n, o, reg, asWritten), NormalizedOrder, i);
  }

  /** The registry check fails with `country_not_in_registry` for an unknown country and
      with `bad_length_for_country` for a known country and another length, never both. */
  lemma CountryChecksExclusive(n: string, o: IbanOptions, reg: Registry, asWritten: bool)
    ensures var f := Failures(n, o, reg, asWritten); var cc := CountryCode(n);
      && (f[3] <==> cc !in reg.lengths || reg.lengths[cc] == 0)
      && (f[4] <==> cc in reg.lengths && reg.lengths[cc] != 0 && |n| != reg.lengths[cc])
      && !(f[3] && f[4])
  {
  }

  /** Check digits that are not two digits also break the basic format. */
  lemma BadCheckDigitsBreakFormat(n: string, o: IbanOptions, reg: Registry, asWritten: bool)
    ensures var f := Failures(n, o, reg, asWritten); f[5] ==> f[2]
  {
  }

  /** The BBAN checks fail only under `strictStructure`, for a country in the registry. */
  lemma BbanChecksNeedKnownCountry(n: string, o: IbanOptions, reg: Registry, asWritten: bool)
    ensures var f := Failures(n, o, reg, asWritten); f[9] || f[10] ==> o.strictStructure && !f[3]
  {
    var f := Failures(n, o, reg, asWritten);
    var g := FormatFailures(n, o, reg);
    assert f[3] == g[3] == !Known(reg, CountryCode(n));
    assert f[9] == BbanLengthWrong(o, reg, n);
    assert f[10] == BbanShapeWrong(o, reg, n, asWritten);
  }

  /** No issue is raised on the normalized IBAN exactly when every check passes. */
  lemma NormalizedEmpty(n: string, o: IbanOptions, reg: Registry, asWritten: bool)
    ensures NormalizedIssues(n, o, reg, asWritten) == [] <==>
      forall i :: 0 <= i < |NormalizedOrder| ==> !Failures(n, o, reg, asWritten)[i]
  {
    FlagEmpty(Failures(n, o, reg, asWritten), NormalizedOrder);
  }

  /** A normalized IBAN that passes every check is two letters, two check digits and at
      least one more character, all upper-case letters and digits; it has the length the
      registry gives its country and lies within the length bounds; its country passes the
      lists; and as a number, ISO 7064 MOD 97-10 leaves 1. */
  lemma AcceptedIsValid(n: string, o: IbanOptions, reg: Registry, asWritten: bool)
    requires forall i :: 0 <= i < |NormalizedOrder| ==> !Failures(n, o, reg, asWritten)[i]
    ensures var cc := CountryCode(n);
      && BasicFormat(n)
      && Known(reg, cc) && |n| == reg.lengths[cc]
      && o.minLength <= |n| <= o.maxLength
      && (o.allowCountries.Some? ==> cc in o.allowCountries.value)
      && (o.blockCountries.Some? ==> cc !in o.blockCountries.value)
      && Num(Expand(Rearrange(n))) % 97 == 1
  {
    var f := Failures(n, o, reg, asWritten);
    assert !f[0] && !f[1] && !f[2] && !f[3] && !f[4];
    assert !f[6] && !f[7] && !f[8];
    Mod97CheckIsIso7064(n);
  }

  /** Normalizing twice changes nothing more: no white space or lower-case letter is left. */
  lemma NormalizeIdempotent(raw: string)
    ensures Normalize(Normalize(raw)) == Normalize(raw)
    ensures forall i :: 0 <= i < |Normalize(raw)| ==> !IsWs(Normalize(raw)[i]) && !IsLower(Normalize(raw)[i])
  {
    var n := Normalize(raw);
    var w := RemoveWs(raw);
    FilterKeeps(raw, NotWs);
    assert forall i :: 0 <= i < |n| ==> n[i] == ToUpper(w[i]) && NotWs(w[i]);
    UpperKeepsNotWs(w);
    FilterKeepsAll(n, NotWs);
    UpperIdempotent(n);
  }

  lemma UpperKeepsNotWs(w: string)
    requires forall i :: 0 <= i < |w| ==> NotWs(w[i])
    ensures forall i :: 0 <= i < |UpperStr(w)| ==> NotWs(UpperStr(w)[i]) && !IsLower(UpperStr(w)[i])
  {
  }

  lemma UpperIdempotent(n: string)
    requires forall i :: 0 <= i < |n| ==> !IsLower(n[i])
    ensures UpperStr(n) == n
  {
  }
}
