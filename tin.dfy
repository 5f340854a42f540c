/** is-us-tin-safe/tin.js: US taxpayer identification numbers. A value is reduced to its
    digits and recognised as an EIN (employer number, by its two-digit prefix), an SSN
    (social security number, by its area, group and serial fields) or an ITIN (individual
    number, first digit 9 and a group in the issued ranges). */
module Tin {
  import opened Builtins

  // ---------------------------------------------------------------- normalizeTin

  /** `normalizeTin(raw)`: every non-digit removed. */
  function NormalizeTin(raw: string): string {
    DigitsOnly(raw)
  }

  /** Only digits are left, none is lost, and normalizing again changes nothing. */
  lemma NormalizeTinIdempotent(raw: string)
    ensures AllDigits(NormalizeTin(raw))
    ensures NormalizeTin(NormalizeTin(raw)) == NormalizeTin(raw)
    ensures AllDigits(raw) ==> NormalizeTin(raw) == raw
  {
    FilterKeeps(raw, IsDigit);
    FilterKeepsAll(NormalizeTin(raw), IsDigit);
    if AllDigits(raw) {
      FilterKeepsAll(raw, IsDigit);
    }
  }

  /** `/^\d{9}$/.test(s)` */
  predicate NineDigits(s: string) {
    |s| == 9 && AllDigits(s)
  }

  /** A three-digit field is worth its digits by place value. */
  lemma ThreeDigitValue(t: string)
    requires |t| == 3 && AllDigits(t)
    ensures DecValue(t) == 100 * DigitValue(t[0]) + 10 * DigitValue(t[1]) + DigitValue(t[2])
  {
    TwoDigitValue(t[..2]);
    DecValueSnoc(t[..2], t[2]);
    assert t == t[..2] + [t[2]];
  }

  lemma TwoDigitValue(t: string)
    requires |t| == 2 && AllDigits(t)
    ensures DecValue(t) == 10 * DigitValue(t[0]) + DigitValue(t[1])
  {
    DecValueSnoc([], t[0]);
    DecValueSnoc([t[0]], t[1]);
    assert t == [] + [t[0]] + [t[1]];
  }

  // ---------------------------------------------------------------- isEIN

  /** The employer-number prefixes the IRS has issued, as listed in the source. */
  const EinPrefixes: set<string> := {
    "01", "02", "03", "04", "05", "06", "10", "11", "12", "13", "14", "15", "16",
    "20", "21", "22", "23", "24", "25", "26", "27", "30", "31", "32", "33", "34", "35", "36", "37", "38", "39",
    "40", "41", "42", "43", "44", "45", "46", "47", "48",
    "50", "51", "52", "53", "54", "55", "56", "57", "58", "59",
    "60", "61", "62", "63", "64", "65", "66", "67", "68",
    "71", "72", "73", "74", "75", "76", "77",
    "80", "81", "82", "83", "84", "85", "86", "87", "88",
    "90", "91", "92", "94", "95", "98", "99"}

  /** `isEIN(raw)`: nine digits whose first two are an issued prefix. */
  predicate IsEin(raw: string) {
    var s := NormalizeTin(raw);
    NineDigits(s) && s[..2] in EinPrefixes
  }

  // ---------------------------------------------------------------- isSSN

  /** The area, group and serial checks of `isSSN` on a nine-digit value. */
  predicate SsnFieldsOk(s: string)
    requires NineDigits(s)
  {
    var area := s[..3];
    var group := s[3..5];
    var serial := s[5..];
    && area != "000" && area != "666" && DecValue(area) < 900
    && group != "00" && serial != "0000"
    && s != "078051120"
  }

  /** `isSSN(raw)` */
  predicate IsSsn(raw: string) {
    var s := NormalizeTin(raw);
    NineDigits(s) && SsnFieldsOk(s)
  }

  /** A field of zeros is exactly a field worth zero. */
  lemma {:induction false} ZeroField(t: string)
    requires AllDigits(t)
    ensures DecValue(t) == 0 <==> forall i :: 0 <= i < |t| ==> t[i] == '0'
    decreases |t|
  {
    if t != [] {
      var p := t[..|t| - 1];
      ZeroField(p);
      assert forall i :: 0 <= i < |p| ==> p[i] == t[i];
    }
  }

  /** The SSN rules by value: an area from 1 to 899 other than 666, a non-zero group, a
      non-zero serial, and not the number printed on the 1938 sample card. */
  lemma SsnByValue(s: string)
    requires NineDigits(s)
    ensures IsSsn(s) <==>
      var area := DecValue(s[..3]);
      && 1 <= area < 900 && area != 666
      && DecValue(s[3..5]) != 0 && DecValue(s[5..]) != 0
      && s != "078051120"
  {
    NormalizeTinIdempotent(s);
    var area, group, serial := s[..3], s[3..5], s[5..];
    ThreeDigitValue(area);
    ZeroField(area);
    ZeroField(group);
    ZeroField(serial);
    assert area == "000" <==> forall i :: 0 <= i < 3 ==> area[i] == '0';
    assert group == "00" <==> forall i :: 0 <= i < 2 ==> group[i] == '0';
    assert serial == "0000" <==> forall i :: 0 <= i < 4 ==> serial[i] == '0';
    assert area == "666" <==> DecValue(area) == 666 by {
      if DecValue(area) == 666 {
        assert area == [area[0], area[1], area[2]];
      }
    }
  }

  // ---------------------------------------------------------------- isITIN

  /** The ITIN group ranges 70-88, 90-92 and 94-99. */
  predicate ItinGroup(g: nat) {
    (70 <= g <= 88) || (90 <= g <= 92) || (94 <= g <= 99)
  }

  /** `isITIN(raw)` */
  predicate IsItin(raw: string) {
    var s := NormalizeTin(raw);
    && NineDigits(s) && s[0] == '9'
    && ItinGroup(DecValue(s[3..5]))
    && s[3..5] != "00" && s[5..] != "0000"
  }

  /** The check that the group is not `00` never rejects anything: the ranges exclude 0. */
  lemma ItinGroupCheckImplied(s: string)
    requires NineDigits(s)
    ensures IsItin(s) <==>
      s[0] == '9' && ItinGroup(DecValue(s[3..5])) && s[5..] != "0000"
  {
    NormalizeTinIdempotent(s);
    var group := s[3..5];
    if group == "00" {
      assert DecValue(group) == 0 by {
        ZeroField(group);
      }
    }
  }

  /** No number is both an SSN and an ITIN: an ITIN's leading 9 puts its area at 900 or
      above. */
  lemma SsnItinExclusive(raw: string)
    ensures !(IsSsn(raw) && IsItin(raw))
  {
    var s := NormalizeTin(raw);
    if NineDigits(s) && s[0] == '9' {
      ThreeDigitValue(s[..3]);
    }
  }

  // ---------------------------------------------------------------- validateTIN

  datatype TinType = Ein | Ssn | Itin

  /** The `type` field: the type's name, or `unknown`. */
  function TypeName(t: Option<TinType>): string {
    match t
    case Some(Ein) => "ein"
    case Some(Ssn) => "ssn"
    case Some(Itin) => "itin"
    case None => "unknown"
  }

  /** `allowTypes` and `blockTypes`; an absent list is `None`. */
  datatype TinOptions = TinOptions(allowTypes: Option<seq<string>>, blockTypes: Option<seq<string>>)

  datatype TinIssue = TypeBlocked | BadFormat | UnknownType

  /** The result record; `normalized` is absent when `None`, `type` is `TypeName(tinType)`. */
  datatype TinResult = TinResult(ok: bool, normalized: Option<string>, tinType: Option<TinType>, issues: seq<TinIssue>)

  /** Whether the normalized value `s` is of type `t`. */
  predicate HasType(s: string, t: TinType) {
    match t
    case Ein => IsEin(s)
    case Ssn => IsSsn(s)
    case Itin => IsItin(s)
  }

  function If(cond: bool, t: TinType): seq<TinType> {
    if cond then [t] else []
  }

  /** The `types` array: the types `s` has, in the order ein, ssn, itin. */
  function Detected(s: string): seq<TinType> {
    If(IsEin(s), Ein) + If(IsSsn(s), Ssn) + If(IsItin(s), Itin)
  }

  /** Every detected type is one the value has. */
  lemma DetectedSound(s: string, k: nat)
    requires k < |Detected(s)|
    ensures HasType(s, Detected(s)[k])
  {
  }

  /** `types.find(t => allow.includes(t))` */
  function FirstAllowed(types: seq<TinType>, allow: seq<string>): Option<TinType>
    decreases |types|
  {
    if types == [] then None
    else if TypeName(Some(types[0])) in allow then Some(types[0])
    else FirstAllowed(types[1..], allow)
  }

  /** `find` gives the first allowed type, or nothing when none is allowed. */
  lemma {:induction false} FirstAllowedSpec(types: seq<TinType>, allow: seq<string>)
    ensures var r := FirstAllowed(types, allow);
      match r
      case None => forall i :: 0 <= i < |types| ==> TypeName(Some(types[i])) !in allow
      case Some(t) =>
        exists k ::
          && 0 <= k < |types| && types[k] == t && TypeName(Some(t)) in allow
          && (forall i :: 0 <= i < k ==> TypeName(Some(types[i])) !in allow)
    decreases |types|
  {
    if types != [] && TypeName(Some(types[0])) !in allow {
      FirstAllowedSpec(types[1..], allow);
      var r := FirstAllowed(types[1..], allow);
      if r.Some? {
        var k :| 0 <= k < |types[1..]| && types[1..][k] == r.value && TypeName(r) in allow
          && (forall i :: 0 <= i < k ==> TypeName(Some(types[1..][i])) !in allow);
        assert types[k + 1] == r.value;
      }
    }
  }

  /** `chosen`: the first detected type, or with a non-empty allow list the first detected
      type on it. */
  function Chosen(types: seq<TinType>, o: TinOptions): Option<TinType> {
    if o.allowTypes.Some? && |o.allowTypes.value| > 0 then FirstAllowed(types, o.allowTypes.value)
    else if types == [] then None
    else Some(types[0])
  }

  /** The chosen type is on the block list (which may name `unknown`). */
  predicate TypeBlockedBy(o: TinOptions, chosen: Option<TinType>) {
    o.blockTypes.Some? && TypeName(chosen) in o.blockTypes.value
  }

  /** What `validateTIN` returns, stated over the detected types. */
  function TinVerdict(raw: string, o: TinOptions): TinResult {
    var s := NormalizeTin(raw);
    var chosen := Chosen(Detected(s), o);
    if TypeBlockedBy(o, chosen) then TinResult(false, Some(s), chosen, [TypeBlocked])
    else if chosen.Some? then TinResult(true, Some(s), chosen, [])
    else TinResult(false, None, None, [if NineDigits(s) then UnknownType else BadFormat])
  }

  /** `validateTIN(raw, opts)`: push each detected type, choose one, and report. */
  method ValidateTin(raw: string, o: TinOptions) returns (r: TinResult)
    ensures r == TinVerdict(raw, o)
  {
    var s := NormalizeTin(raw);
    var types: seq<TinType> := [];
    if IsEin(s) {
      types := types + [Ein];
    }
    if IsSsn(s) {
      types := types + [Ssn];
    }
    if IsItin(s) {
      types := types + [Itin];
    }
    assert types == Detected(s);
    var chosen: Option<TinType> := if types == [] then None else Some(types[0]);
    if o.allowTypes.Some? && |o.allowTypes.value| > 0 {
      chosen := FirstAllowed(types, o.allowTypes.value);
    }
    if o.blockTypes.Some? && TypeName(chosen) in o.blockTypes.value {
      return TinResult(false, Some(s), chosen, [TypeBlocked]);
    }
    var ok := chosen.Some?;
    var issues: seq<TinIssue> := [];
    if !ok {
      if !NineDigits(s) {
        issues := issues + [BadFormat];
      } else {
        issues := issues + [UnknownType];
      }
    }
    r := TinResult(ok, if ok then Some(s) else None, chosen, issues);
  }

  /** An accepted number has nine digits and the type reported, which is allowed and not
      blocked; every type detected before it is outside a non-empty allow list. */
  lemma TinAccepted(raw: string, o: TinOptions)
    requires TinVerdict(raw, o).ok
    ensures var r := TinVerdict(raw, o); var s := NormalizeTin(raw);
      && r.issues == [] && r.normalized == Some(s) && NineDigits(s)
      && r.tinType.Some? && HasType(s, r.tinType.value)
      && (o.allowTypes.Some? ==> |o.allowTypes.value| == 0 || TypeName(r.tinType) in o.allowTypes.value)
      && !TypeBlockedBy(o, r.tinType)
  {
    var s := NormalizeTin(raw);
    var types := Detected(s);
    NormalizeTinIdempotent(raw);
    if o.allowTypes.Some? && |o.allowTypes.value| > 0 {
      FirstAllowedSpec(types, o.allowTypes.value);
      var k :| 0 <= k < |types| && types[k] == TinVerdict(raw, o).tinType.value;
      DetectedSound(s, k);
    } else {
      DetectedSound(s, 0);
    }
    var t := TinVerdict(raw, o).tinType.value;
    assert NineDigits(NormalizeTin(s)) by {
      match t
      case Ein =>
      case Ssn =>
      case Itin =>
    }
  }

  /** A rejection carries exactly one issue: `type_blocked` when the chosen type (possibly
      `unknown`) is blocked, otherwise `bad_format` for anything but nine digits and
      `unknown_type` for nine digits of no allowed type; only `type_blocked` keeps the
      normalized value. */
  lemma TinRejected(raw: string, o: TinOptions)
    requires !TinVerdict(raw, o).ok
    ensures var r := TinVerdict(raw, o); var s := NormalizeTin(raw);
      var chosen := Chosen(Detected(s), o);
      && |r.issues| == 1
      && (r.issues == [TypeBlocked] <==> TypeBlockedBy(o, chosen))
      && (r.issues == [BadFormat] <==> !TypeBlockedBy(o, chosen) && !NineDigits(s))
      && (r.issues == [UnknownType] <==> !TypeBlockedBy(o, chosen) && NineDigits(s))
      && (r.normalized.Some? <==> r.issues == [TypeBlocked])
  {
  }

  /** Without an allow list a number of nine digits with no type is `unknown_type`, and a
      value of another length is `bad_format`. */
  lemma TinNoType(raw: string)
    requires Detected(NormalizeTin(raw)) == []
    ensures TinVerdict(raw, TinOptions(None, None)).issues
      == [if NineDigits(NormalizeTin(raw)) then UnknownType else BadFormat]
  {
  }

  /** Without an allow list, an employer number is reported as one, whatever else it is. */
  lemma EinComesFirst(raw: string, block: Option<seq<string>>)
    requires IsEin(NormalizeTin(raw))
    requires block.Some? ==> "ein" !in block.value
    ensures TinVerdict(raw, TinOptions(None, block)) == TinResult(true, Some(NormalizeTin(raw)), Some(Ein), [])
  {
  }

  /** `123456789` is an employer number: the prefix 12 was issued. */
  lemma EinExample()
    ensures IsEin("123456789")
  {
    var s := "123456789";
    NormalizeTinIdempotent(s);
    assert s[..2] == "12";
  }
}
