/** is-vat-safe/vat.js: format checks of European VAT identification numbers. A number is
    normalized, its two-letter country prefix detected, and the rest matched against the
    pattern of that country (no check digits are verified). */
module Vat {
  import opened Builtins

  // ---------------------------------------------------------------- normalizeVat

  /** `[\s.\-_/]`: the separators removed from a number. */
  predicate Separator(c: char) {
    IsWs(c) || c in ".-_/"
  }

  predicate NotSeparator(c: char) { !Separator(c) }

  /** `normalizeVat(raw)`: trimmed, separators removed, upper-cased. */
  function NormalizeVat(raw: string): string {
    var s := Trim(raw);
    if s == [] then [] else UpperStr(Filter(s, NotSeparator))
  }

  /** A normalized number has no separator and no lower-case letter, and normalizing it
      again changes nothing. */
  lemma NormalizeVatIdempotent(raw: string)
    ensures var n := NormalizeVat(raw);
      && (forall i :: 0 <= i < |n| ==> !Separator(n[i]) && !IsLower(n[i]))
      && NormalizeVat(n) == n
  {
    var n := NormalizeVat(raw);
    var s := Trim(raw);
    if s != [] {
      var f := Filter(s, NotSeparator);
      FilterKeeps(s, NotSeparator);
      assert forall i :: 0 <= i < |n| ==> n[i] == ToUpper(f[i]);
      assert forall i :: 0 <= i < |n| ==> !Separator(n[i]) by {
        forall i | 0 <= i < |n|
          ensures !Separator(n[i])
        {
          assert NotSeparator(f[i]);
        }
      }
      NormalizedUnchanged(n);
    }
  }

  /** A value without separators or lower-case letters is its own normalization. */
  lemma NormalizedUnchanged(n: string)
    requires forall i :: 0 <= i < |n| ==> !Separator(n[i]) && !IsLower(n[i])
    ensures NormalizeVat(n) == n
  {
    if n != [] {
      TrimNoop(n);
      FilterKeepsAll(n, NotSeparator);
      assert UpperStr(n) == n;
    }
  }

  // ---------------------------------------------------------------- detectCountry

  /** `detectCountry(s)`: the first two characters of the normalized value when both are
      `A`-`Z`, else the empty string. */
  function DetectCountry(s: string): (cc: string)
    ensures |cc| == 0 || |cc| == 2
  {
    LetterPrefix(NormalizeVat(s))
  }

  /** `/^[A-Z]{2}/.test(n) ? n.slice(0, 2) : ""` */
  function LetterPrefix(n: string): string {
    if |n| >= 2 && IsUpper(n[0]) && IsUpper(n[1]) then n[..2] else []
  }

  /** Detection on an already normalized value agrees with detection on the raw value. */
  lemma DetectOnNormalized(raw: string)
    ensures DetectCountry(NormalizeVat(raw)) == DetectCountry(raw)
  {
    NormalizeVatIdempotent(raw);
  }

  // ---------------------------------------------------------------- the pattern table

  /** The keys of the `RX` table. */
  datatype Country =
    | AT | BE | BG | CY | CZ | DE | DK | EE | EL | ES | FI | FR | HR | HU
    | IE | IT | LT | LU | LV | MT | NL | PL | PT | RO | SE | SI | SK | GB

  function Code(c: Country): string {
    match c
    case AT => "AT" case BE => "BE" case BG => "BG" case CY => "CY" case CZ => "CZ"
    case DE => "DE" case DK => "DK" case EE => "EE" case EL => "EL" case ES => "ES"
    case FI => "FI" case FR => "FR" case HR => "HR" case HU => "HU" case IE => "IE"
    case IT => "IT" case LT => "LT" case LU => "LU" case LV => "LV" case MT => "MT"
    case NL => "NL" case PL => "PL" case PT => "PT" case RO => "RO" case SE => "SE"
    case SI => "SI" case SK => "SK" case GB => "GB"
  }

  /** `SUPPORTED.has(cc)` and `RX[cc]`: the table entry for a prefix, if any. */
  function CountryOf(cc: string): Option<Country> {
    if |cc| != 2 then None
    else
      var a, b := cc[0], cc[1];
      if a == 'A' then (if b == 'T' then Some(AT) else None)
      else if a == 'B' then (if b == 'E' then Some(BE) else if b == 'G' then Some(BG) else None)
      else if a == 'C' then (if b == 'Y' then Some(CY) else if b == 'Z' then Some(CZ) else None)
      else if a == 'D' then (if b == 'E' then Some(DE) else if b == 'K' then Some(DK) else None)
      else if a == 'E' then
        (if b == 'E' then Some(EE) else if b == 'L' then Some(EL) else if b == 'S' then Some(ES) else None)
      else if a == 'F' then (if b == 'I' then Some(FI) else if b == 'R' then Some(FR) else None)
      else if a == 'G' then (if b == 'B' then Some(GB) else None)
      else if a == 'H' then (if b == 'R' then Some(HR) else if b == 'U' then Some(HU) else None)
      else if a == 'I' then (if b == 'E' then Some(IE) else if b == 'T' then Some(IT) else None)
      else if a == 'L' then
        (if b == 'T' then Some(LT) else if b == 'U' then Some(LU) else if b == 'V' then Some(LV) else None)
      else if a == 'M' then (if b == 'T' then Some(MT) else None)
      else if a == 'N' then (if b == 'L' then Some(NL) else None)
      else if a == 'P' then (if b == 'L' then Some(PL) else if b == 'T' then Some(PT) else None)
      else if a == 'R' then (if b == 'O' then Some(RO) else None)
      else if a == 'S' then
        (if b == 'E' then Some(SE) else if b == 'I' then Some(SI) else if b == 'K' then Some(SK) else None)
      else None
  }

  /** The table is keyed by the codes: every country is found under its own code, and a
      code finds only the country it names. */
  lemma CountryOfCode(c: Country)
    ensures CountryOf(Code(c)) == Some(c)
  {
  }

  lemma CodeOfCountry(cc: string)
    ensures CountryOf(cc).Some? ==> Code(CountryOf(cc).value) == cc
  {
    if CountryOf(cc).Some? {
      assert cc == [cc[0], cc[1]];
    }
  }

  /** `\d{k}` on the whole of `t`. */
  predicate Digits(t: string, k: nat) {
    |t| == k && forall i :: 0 <= i < |t| ==> IsDigit(t[i])
  }

  /** `\d{lo,hi}` on the whole of `t`. */
  predicate DigitsBetween(t: string, lo: nat, hi: nat) {
    lo <= |t| <= hi && forall i :: 0 <= i < |t| ==> IsDigit(t[i])
  }

  predicate UpperOrDigit(c: char) { IsUpper(c) || IsDigit(c) }

  /** `[A-HJ-NP-Z0-9]`: a letter other than `I` and `O`, or a digit. */
  predicate FrenchKey(c: char) { (IsUpper(c) && c != 'I' && c != 'O') || IsDigit(c) }

  /** `[A-W]` */
  predicate IrishLetter(c: char) { 'A' <= c <= 'W' }

  /** `[A-I]` */
  predicate IrishSuffix(c: char) { 'A' <= c <= 'I' }

  /** Three digits after a two-letter marker, as in `GD\d{3}`. */
  predicate MarkedThree(t: string, x: char, y: char) {
    |t| == 5 && t[0] == x && t[1] == y && Digits(t[2..], 3)
  }

  /** The part of `RX[cc]` after the country prefix, applied to what follows the prefix.
      The Czech entry is the evidently intended `\d{8,10}` (see `CzechAsWritten`). */
  predicate Rest(c: Country, t: string) {
    match c
    case AT => |t| == 9 && t[0] == 'U' && Digits(t[1..], 8)
    case BE => Digits(t, 9) || (|t| == 10 && t[0] == '0' && Digits(t[1..], 9))
    case BG => DigitsBetween(t, 9, 10)
    case CY => |t| == 9 && Digits(t[..8], 8) && IsUpper(t[8])
    case CZ => DigitsBetween(t, 8, 10)
    case DE => Digits(t, 9)
    case DK => Digits(t, 8)
    case EE => Digits(t, 9)
    case EL => Digits(t, 9)
    case ES => |t| == 9 && UpperOrDigit(t[0]) && Digits(t[1..8], 7) && UpperOrDigit(t[8])
    case FI => Digits(t, 8)
    case FR => |t| == 11 && FrenchKey(t[0]) && FrenchKey(t[1]) && Digits(t[2..], 9)
    case HR => Digits(t, 11)
    case HU => Digits(t, 8)
    case IE =>
      && 8 <= |t| <= 9 && Digits(t[..7], 7) && IrishLetter(t[7])
      && (|t| == 9 ==> IrishSuffix(t[8]))
    case IT => Digits(t, 11)
    case LT => Digits(t, 9) || Digits(t, 12)
    case LU => Digits(t, 8)
    case LV => Digits(t, 11)
    case MT => Digits(t, 8)
    case NL => |t| == 12 && Digits(t[..9], 9) && t[9] == 'B' && Digits(t[10..], 2)
    case PL => Digits(t, 10)
    case PT => Digits(t, 9)
    case RO => DigitsBetween(t, 2, 10)
    case SE => Digits(t, 12)
    case SI => Digits(t, 8)
    case SK => Digits(t, 10)
    case GB => Digits(t, 9) || Digits(t, 12) || MarkedThree(t, 'G', 'D') || MarkedThree(t, 'H', 'A')
  }

  /** The table entry after the prefix as the program has it: with `asWritten`, the Czech
      entry as written; otherwise the intended table. */
  predicate RestWith(c: Country, t: string, asWritten: bool) {
    if c == CZ && asWritten then CzechAsWritten(t) else Rest(c, t)
  }

  /** `RX[cc].test(n)`: the prefix and then the rest. */
  predicate Matches(c: Country, n: string, asWritten: bool) {
    |n| >= 2 && n[..2] == Code(c) && RestWith(c, n[2..], asWritten)
  }

  /** The Czech entry as written, `\d{8,9,10}`: `{8,9,10}` is no quantifier, so the legacy
      grammar of JavaScript patterns reads it as literal text after a single digit. */
  predicate CzechAsWritten(t: string) {
    |t| == 9 && IsDigit(t[0]) && t[1..] == "{8,9,10}"
  }

  /** As written, no Czech number of 8 to 10 digits passes, while one digit followed by
      the text `{8,9,10}` does; the intended entry does the reverse. */
  lemma CzechEntryAsWritten(t: string, d: char)
    requires DigitsBetween(t, 8, 10) && IsDigit(d)
    ensures !CzechAsWritten(t) && Rest(CZ, t)
    ensures CzechAsWritten([d] + "{8,9,10}") && !Rest(CZ, [d] + "{8,9,10}")
  {
    if |t| == 9 {
      assert IsDigit(t[1]) && t[1..][0] == t[1];
    }
    assert ([d] + "{8,9,10}")[1..] == "{8,9,10}";
    assert !IsDigit(([d] + "{8,9,10}")[1]);
  }

  /** Every pattern after the prefix has between 2 and 12 characters. */
  lemma RestLength(c: Country, t: string, asWritten: bool)
    requires RestWith(c, t, asWritten)
    ensures 2 <= |t| <= 12
  {
  }

  // ---------------------------------------------------------------- isVatSafe

  /** The options of `isVatSafe`; an absent list is `None`. */
  datatype VatOptions = VatOptions(allowed: Option<seq<string>>, blocked: Option<seq<string>>)

  /** The issue codes `isVatSafe` reports. */
  datatype VatIssue =
    | Empty | MissingPrefix | CountryNotAllowed | CountryBlocked | CountryUnsupported | BadPattern

  function IssueCode(i: VatIssue): string {
    match i
    case Empty => "empty"
    case MissingPrefix => "missing_prefix"
    case CountryNotAllowed => "country_not_allowed"
    case CountryBlocked => "country_blocked"
    case CountryUnsupported => "country_unsupported"
    case BadPattern => "bad_pattern"
  }

  /** The result record: `country` and `normalized` are absent when `None`. */
  datatype VatResult = VatResult(
    ok: bool,
    country: Option<string>,
    normalized: Option<string>,
    issues: seq<VatIssue>)

  function If(cond: bool, issue: VatIssue): seq<VatIssue> {
    if cond then [issue] else []
  }

  /** A prefix was found, an allow list is given, and the prefix is not on it. */
  predicate NotAllowed(o: VatOptions, cc: string) {
    cc != [] && o.allowed.Some? && cc !in o.allowed.value
  }

  /** A prefix was found, a block list is given, and the prefix is on it. */
  predicate Blocked(o: VatOptions, cc: string) {
    cc != [] && o.blocked.Some? && cc in o.blocked.value
  }

  /** The issues raised before the table is consulted, in order. */
  function PrefixIssues(cc: string, o: VatOptions): seq<VatIssue> {
    If(cc == [], MissingPrefix) + If(NotAllowed(o, cc), CountryNotAllowed)
    + If(Blocked(o, cc), CountryBlocked)
  }

  /** What `isVatSafe(raw, opts)` returns. */
  function VatVerdict(raw: string, o: VatOptions, asWritten: bool): VatResult {
    var n := NormalizeVat(raw);
    if n == [] then VatResult(false, None, None, [Empty]) else Judge(n, DetectCountry(n), o, asWritten)
  }

  /** The judgement of a non-empty normalized number `n` with detected prefix `cc`. */
  function Judge(n: string, cc: string, o: VatOptions, asWritten: bool): VatResult {
    var early := PrefixIssues(cc, o);
    match CountryOf(cc)
    case None => VatResult(false, None, None, Uniq(early + [CountryUnsupported]))
    case Some(c) =>
      var issues := early + If(!Matches(c, n, asWritten), BadPattern);
      VatResult(issues == [], Some(cc), if issues == [] then Some(n) else None, Uniq(issues))
  }

  /** `isVatSafe(raw, opts)`: an empty number fails at once; otherwise the prefix is
      detected and the number judged. `asWritten` selects the Czech entry as written;
      without it, the intended one. */
  method IsVatSafe(raw: string, o: VatOptions, asWritten: bool) returns (r: VatResult)
    ensures r == VatVerdict(raw, o, asWritten)
  {
    var normalized := NormalizeVat(raw);
    if normalized == [] {
      return VatResult(false, None, None, [Empty]);
    }
    var cc := DetectCountry(normalized);
    r := JudgeNumber(normalized, cc, o, asWritten);
  }

  /** The rest of `isVatSafe`: push each issue whose condition holds, and stop early when
      the prefix is missing or not in the table. */
  method JudgeNumber(normalized: string, cc: string, o: VatOptions, asWritten: bool) returns (r: VatResult)
    ensures r == Judge(normalized, cc, o, asWritten)
  {
    var issues: seq<VatIssue> := [];
    if cc == [] {
      issues := issues + [MissingPrefix];
    }
    if cc != [] && o.allowed.Some? && cc !in o.allowed.value {
      issues := issues + [CountryNotAllowed];
    }
    if cc != [] && o.blocked.Some? && cc in o.blocked.value {
      issues := issues + [CountryBlocked];
    }
    assert issues == PrefixIssues(cc, o);
    var entry := CountryOf(cc);
    if cc == [] || entry.None? {
      assert entry.None?;
      issues := issues + [CountryUnsupported];
      return VatResult(false, None, None, Uniq(issues));
    }
    if !Matches(entry.value, normalized, asWritten) {
      issues := issues + [BadPattern];
    }
    var ok := |issues| == 0;
    r := VatResult(ok, Some(cc), if ok then Some(normalized) else None, Uniq(issues));
  }

  /** A number passes exactly when, once normalized, it is non-empty, starts with the code of
      a country in the table that the lists allow, and the rest fits that country's
      pattern; then its result carries the country and the normalized number, and no
      issue. */
  lemma VatAccepted(raw: string, o: VatOptions, asWritten: bool)
    ensures var r := VatVerdict(raw, o, asWritten); var n := NormalizeVat(raw);
      r.ok <==>
        && |n| >= 2
        && CountryOf(n[..2]).Some?
        && (o.allowed.Some? ==> n[..2] in o.allowed.value)
        && (o.blocked.Some? ==> n[..2] !in o.blocked.value)
        && RestWith(CountryOf(n[..2]).value, n[2..], asWritten)
    ensures var r := VatVerdict(raw, o, asWritten); var n := NormalizeVat(raw);
      r.ok ==> r == VatResult(true, Some(n[..2]), Some(n), [])
  {
    var n := NormalizeVat(raw);
    if n != [] {
      DetectedPrefix(raw);
      JudgeAccepted(n, DetectCountry(n), o, asWritten);
    }
  }

  /** On a normalized number, the detected prefix is its first two characters when both
      are letters. */
  lemma DetectedPrefix(raw: string)
    ensures var n := NormalizeVat(raw);
      DetectCountry(n) == LetterPrefix(n)
  {
    NormalizeVatIdempotent(raw);
  }

  /** Every code in the table is two letters. */
  lemma CodeIsLetters(c: Country)
    ensures |Code(c)| == 2 && IsUpper(Code(c)[0]) && IsUpper(Code(c)[1])
  {
  }

  lemma JudgeAccepted(n: string, cc: string, o: VatOptions, asWritten: bool)
    requires cc == LetterPrefix(n)
    ensures var r := Judge(n, cc, o, asWritten);
      r.ok <==>
        && |n| >= 2
        && CountryOf(n[..2]).Some?
        && (o.allowed.Some? ==> n[..2] in o.allowed.value)
        && (o.blocked.Some? ==> n[..2] !in o.blocked.value)
        && RestWith(CountryOf(n[..2]).value, n[2..], asWritten)
    ensures var r := Judge(n, cc, o, asWritten);
      r.ok ==> r == VatResult(true, Some(n[..2]), Some(n), [])
  {
    if |n| >= 2 {
      var p := n[..2];
      CodeOfCountry(p);
      if CountryOf(p).Some? {
        CodeIsLetters(CountryOf(p).value);
        assert p[0] == n[0] && p[1] == n[1];
      }
    }
  }

  /** A German number is `DE` and nine digits: with no lists given, `DE` followed by any
      nine digits passes. */
  lemma GermanNumberAccepted(digits: string, asWritten: bool)
    requires Digits(digits, 9)
    ensures VatVerdict("DE" + digits, VatOptions(None, None), asWritten).ok
  {
    GermanNormalized(digits);
    GermanPattern(digits);
    VatAccepted("DE" + digits, VatOptions(None, None), asWritten);
  }

  lemma GermanNormalized(digits: string)
    requires Digits(digits, 9)
    ensures NormalizeVat("DE" + digits) == "DE" + digits
  {
    var n := "DE" + digits;
    assert forall i :: 0 <= i < |n| ==> !Separator(n[i]) && !IsLower(n[i]) by {
      assert forall i :: 2 <= i < |n| ==> n[i] == digits[i - 2];
    }
    NormalizedUnchanged(n);
  }

  lemma GermanPattern(digits: string)
    requires Digits(digits, 9)
    ensures var n := "DE" + digits; |n| >= 2 && CountryOf(n[..2]) == Some(DE) && Rest(DE, n[2..])
  {
    var n := "DE" + digits;
    assert n[..2] == "DE" && n[2..] == digits;
  }

  /** As written, a Czech number of eight digits is rejected as a bad pattern, while `CZ`,
      one digit and the text `{8,9,10}` passes; the intended entry does the reverse. */
  lemma CzechVerdicts(digits: string, odd: string)
    requires digits == "CZ12345678" && odd == "CZ1{8,9,10}"
    ensures !VatVerdict(digits, VatOptions(None, None), true).ok
    ensures VatVerdict(digits, VatOptions(None, None), false).ok
    ensures VatVerdict(odd, VatOptions(None, None), true).ok
    ensures !VatVerdict(odd, VatOptions(None, None), false).ok
  {
    CzechDigitsVerdict(digits);
    CzechOddVerdict(odd);
  }

  lemma CzechDigitsVerdict(n: string)
    requires n == "CZ12345678"
    ensures !VatVerdict(n, VatOptions(None, None), true).ok
    ensures VatVerdict(n, VatOptions(None, None), false).ok
  {
    var t := n[2..];
    assert DigitsBetween(t, 8, 10);
    CzechEntryAsWritten(t, '1');
    CzechNormalized(n);
    CzechVerdict(n, true);
    CzechVerdict(n, false);
  }

  lemma CzechOddVerdict(n: string)
    requires n == "CZ1{8,9,10}"
    ensures VatVerdict(n, VatOptions(None, None), true).ok
    ensures !VatVerdict(n, VatOptions(None, None), false).ok
  {
    assert n[2..] == ['1'] + "{8,9,10}";
    CzechEntryAsWritten("12345678", '1');
    CzechNormalized(n);
    CzechVerdict(n, true);
    CzechVerdict(n, false);
  }

  /** A normalized number starting `CZ` passes, with no lists given, exactly when the Czech
      entry accepts the rest. */
  lemma CzechVerdict(n: string, asWritten: bool)
    requires NormalizeVat(n) == n && |n| >= 2 && n[..2] == Code(CZ)
    ensures VatVerdict(n, VatOptions(None, None), asWritten).ok <==> RestWith(CZ, n[2..], asWritten)
  {
    CountryOfCode(CZ);
    VatAccepted(n, VatOptions(None, None), asWritten);
  }

  lemma CzechNormalized(n: string)
    requires n == "CZ12345678" || n == "CZ1{8,9,10}"
    ensures NormalizeVat(n) == n && n[..2] == Code(CZ)
  {
    assert forall i :: 0 <= i < |n| ==> !Separator(n[i]) && !IsLower(n[i]);
    NormalizedUnchanged(n);
  }
}
