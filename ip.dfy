/** is-ip-safe/ip.js: a trimmed input with a colon is checked as IPv6 (three to eight
    colon-separated groups of at most four hex digits, empty groups allowed anywhere), one
    with a dot as an IPv4 dotted quad (four decimal parts, each at most 255 and without a
    leading zero). Each bad part adds its own issues; nothing is de-duplicated. */
module Ip {
  import opened Builtins

  datatype IpIssue =
    | Empty | UnknownFormat | BadSegmentCount
    | NonNumeric | OutOfRange | LeadingZero | InvalidHexGroup

  /** The result record; `version` is `null` when `None`. */
  datatype IpResult = IpResult(ok: bool, version: Option<nat>, issues: seq<IpIssue>)

  // ---------------------------------------------------------------- IPv4

  /** The issues of one dot-separated part: `non_numeric`, or `out_of_range` and then
      `leading_zero` as they apply. */
  function V4PartIssues(part: string): seq<IpIssue> {
    if !IsDigits(part) then [NonNumeric]
    else
      (if DecValue(part) > 255 then [OutOfRange] else [])
      + (if |part| > 1 && part[0] == '0' then [LeadingZero] else [])
  }

  /** The issues of all parts, in order. */
  function V4Issues(parts: seq<string>): seq<IpIssue>
    decreases |parts|
  {
    if parts == [] then [] else V4Issues(parts[..|parts| - 1]) + V4PartIssues(parts[|parts| - 1])
  }

  /** What `validateIPv4(ip)` returns. */
  function V4Verdict(ip: string): IpResult {
    var parts := Split(ip, '.');
    if |parts| != 4 then IpResult(false, Some(4), [BadSegmentCount])
    else
      var issues := V4Issues(parts);
      IpResult(issues == [], Some(4), issues)
  }

  /** `validateIPv4(ip)`: split on dots and push the issues of each part. */
  method ValidateIPv4(ip: string) returns (r: IpResult)
    ensures r == V4Verdict(ip)
  {
    var parts := Split(ip, '.');
    if |parts| != 4 {
      return IpResult(false, Some(4), [BadSegmentCount]);
    }
    var issues: seq<IpIssue> := [];
    for i := 0 to |parts|
      invariant issues == V4Issues(parts[..i])
    {
      assert parts[..i + 1][..i] == parts[..i];
      var part := parts[i];
      if !IsDigits(part) {
        issues := issues + [NonNumeric];
      } else {
        var n := DecValue(part);
        if n > 255 {
          issues := issues + [OutOfRange];
        }
        if |part| > 1 && part[0] == '0' {
          issues := issues + [LeadingZero];
        }
      }
    }
    assert parts[..|parts|] == parts;
    r := IpResult(|issues| == 0, Some(4), issues);
  }

  /** A part that raises nothing: decimal digits worth at most 255, and no leading zero
      unless the part is `0` itself. */
  predicate Octet(part: string) {
    IsDigits(part) && DecValue(part) <= 255 && (|part| > 1 ==> part[0] != '0')
  }

  lemma {:induction false} V4IssuesEmpty(parts: seq<string>)
    ensures V4Issues(parts) == [] <==> forall i :: 0 <= i < |parts| ==> Octet(parts[i])
    decreases |parts|
  {
    if parts != [] {
      var init := parts[..|parts| - 1];
      V4IssuesEmpty(init);
      assert forall i :: 0 <= i < |init| ==> init[i] == parts[i];
    }
  }

  /** An IPv4 address passes exactly when it has four parts and every part is an octet. */
  lemma V4Accepted(ip: string)
    ensures V4Verdict(ip).ok <==>
      |Split(ip, '.')| == 4 && forall i :: 0 <= i < 4 ==> Octet(Split(ip, '.')[i])
  {
    V4IssuesEmpty(Split(ip, '.'));
  }

  // ---------------------------------------------------------------- IPv6

  /** `/^[0-9a-fA-F]{1,4}$/` */
  predicate HexGroup(part: string) {
    1 <= |part| <= 4 && forall i :: 0 <= i < |part| ==> IsHexDigit(part[i])
  }

  /** Empty parts (from `::`) are skipped; any other part must be a hex group. */
  function V6PartIssues(part: string): seq<IpIssue> {
    if part == [] || HexGroup(part) then [] else [InvalidHexGroup]
  }

  function V6Issues(parts: seq<string>): seq<IpIssue>
    decreases |parts|
  {
    if parts == [] then [] else V6Issues(parts[..|parts| - 1]) + V6PartIssues(parts[|parts| - 1])
  }

  /** What `validateIPv6(ip)` returns. */
  function V6Verdict(ip: string): IpResult {
    var parts := Split(ip, ':');
    if |parts| < 3 || |parts| > 8 then IpResult(false, Some(6), [BadSegmentCount])
    else
      var issues := V6Issues(parts);
      IpResult(issues == [], Some(6), issues)
  }

  /** `validateIPv6(ip)`: split on colons and push an issue for each bad group. */
  method ValidateIPv6(ip: string) returns (r: IpResult)
    ensures r == V6Verdict(ip)
  {
    var parts := Split(ip, ':');
    if |parts| < 3 || |parts| > 8 {
      return IpResult(false, Some(6), [BadSegmentCount]);
    }
    var issues: seq<IpIssue> := [];
    for i := 0 to |parts|
      invariant issues == V6Issues(parts[..i])
    {
      assert parts[..i + 1][..i] == parts[..i];
      var part := parts[i];
      if part == [] {
        continue;
      }
      if !HexGroup(part) {
        issues := issues + [InvalidHexGroup];
      }
    }
    assert parts[..|parts|] == parts;
    r := IpResult(|issues| == 0, Some(6), issues);
  }

  lemma {:induction false} V6IssuesEmpty(parts: seq<string>)
    ensures V6Issues(parts) == [] <==> forall i :: 0 <= i < |parts| ==> parts[i] == [] || HexGroup(parts[i])
    decreases |parts|
  {
    if parts != [] {
      var init := parts[..|parts| - 1];
      V6IssuesEmpty(init);
      assert forall i :: 0 <= i < |init| ==> init[i] == parts[i];
    }
  }

  /** An IPv6 address passes exactly when it has three to eight parts and every non-empty
      part is a hex group. */
  lemma V6Accepted(ip: string)
    ensures V6Verdict(ip).ok <==>
      var parts := Split(ip, ':');
      3 <= |parts| <= 8 && forall i :: 0 <= i < |parts| ==> parts[i] == [] || HexGroup(parts[i])
  {
    V6IssuesEmpty(Split(ip, ':'));
  }

  // ---------------------------------------------------------------- isIpSafe

  /** What `isIpSafe(input)` returns. */
  function IpVerdict(input: string): IpResult {
    var raw := Trim(input);
    if raw == [] then IpResult(false, None, [Empty])
    else if ':' in raw then V6Verdict(raw)
    else if '.' in raw then V4Verdict(raw)
    else IpResult(false, None, [UnknownFormat])
  }

  /** `isIpSafe(input)`: trim, then dispatch on the first separator kind present. */
  method IsIpSafe(input: string) returns (r: IpResult)
    ensures r == IpVerdict(input)
  {
    var raw := Trim(input);
    if raw == [] {
      return IpResult(false, None, [Empty]);
    }
    if ':' in raw {
      r := ValidateIPv6(raw);
    } else if '.' in raw {
      r := ValidateIPv4(raw);
    } else {
      r := IpResult(false, None, [UnknownFormat]);
    }
  }

  /** `isIPv4(raw)` */
  predicate IsIPv4(raw: string) {
    IpVerdict(raw).version == Some(4) && IpVerdict(raw).ok
  }

  /** `isIPv6(raw)` */
  predicate IsIPv6(raw: string) {
    IpVerdict(raw).version == Some(6) && IpVerdict(raw).ok
  }

  /** `isIPv4` on text that is already trimmed and has no colon but a dot. */
  lemma IsIPv4Plain(t: string)
    requires Trim(t) == t && ':' !in t && '.' in t
    ensures IsIPv4(t) <==> V4Verdict(t).ok
  {
  }

  /** `isIPv6` on text that is already trimmed and has a colon. */
  lemma IsIPv6Plain(t: string)
    requires Trim(t) == t && ':' in t
    ensures IsIPv6(t) <==> V6Verdict(t).ok
  {
  }

  /** The result is ok exactly when there is no issue, and every rejection says why. */
  lemma IpOkIffNoIssues(input: string)
    ensures IpVerdict(input).ok <==> IpVerdict(input).issues == []
    ensures Trim(input) == [] <==> IpVerdict(input) == IpResult(false, None, [Empty])
    ensures IpVerdict(input).version == None ==> !IpVerdict(input).ok
  {
  }

  /** The dotted quad of four byte values, in decimal without leading zeros. */
  function DottedQuad(a: nat, b: nat, c: nat, d: nat): string {
    Join(DottedParts(a, b, c, d), '.')
  }

  function DottedParts(a: nat, b: nat, c: nat, d: nat): seq<string> {
    [NatToString(a), NatToString(b), NatToString(c), NatToString(d)]
  }

  lemma DottedPartsOctets(a: nat, b: nat, c: nat, d: nat)
    requires a < 256 && b < 256 && c < 256 && d < 256
    ensures var parts := DottedParts(a, b, c, d);
      forall i :: 0 <= i < 4 ==> Octet(parts[i]) && '.' !in parts[i] && ':' !in parts[i]
  {
    OctetOf(a);
    OctetOf(b);
    OctetOf(c);
    OctetOf(d);
  }

  /** The decimal rendering of a byte value is an octet, free of separators. */
  lemma OctetOf(n: nat)
    requires n < 256
    ensures Octet(NatToString(n)) && '.' !in NatToString(n) && ':' !in NatToString(n)
  {
    var p := NatToString(n);
    assert forall c :: c in p ==> IsDigit(c);
  }

  lemma JoinFour(p: seq<string>, sep: char)
    requires |p| == 4
    ensures Join(p, sep) == p[0] + [sep] + p[1] + [sep] + p[2] + [sep] + p[3]
  {
    var q := p[1..];
    var r := q[1..];
    assert r[1..] == [p[3]] && r[0] == p[2] && q[0] == p[1];
    assert Join(r, sep) == p[2] + [sep] + p[3];
    assert Join(q, sep) == p[1] + [sep] + Join(r, sep);
  }

  /** Every address written the usual way is accepted as IPv4. */
  lemma DottedQuadAccepted(a: nat, b: nat, c: nat, d: nat)
    requires a < 256 && b < 256 && c < 256 && d < 256
    ensures IsIPv4(DottedQuad(a, b, c, d))
  {
    DottedPartsOctets(a, b, c, d);
    QuadAccepted(DottedParts(a, b, c, d));
  }

  lemma QuadAccepted(parts: seq<string>)
    requires |parts| == 4
    requires forall i :: 0 <= i < 4 ==> Octet(parts[i]) && '.' !in parts[i] && ':' !in parts[i]
    ensures IsIPv4(Join(parts, '.'))
  {
    var t := Join(parts, '.');
    DottedQuadV4(parts, t);
    DottedQuadText(parts, t);
    IsIPv4Plain(t);
  }

  lemma DottedQuadV4(parts: seq<string>, t: string)
    requires |parts| == 4 && t == Join(parts, '.')
    requires forall i :: 0 <= i < 4 ==> Octet(parts[i]) && '.' !in parts[i] && ':' !in parts[i]
    ensures V4Verdict(t).ok
  {
    SplitJoin(parts, '.');
    V4Accepted(t);
  }

  lemma DottedQuadText(parts: seq<string>, t: string)
    requires |parts| == 4 && t == Join(parts, '.')
    requires forall i :: 0 <= i < 4 ==> Octet(parts[i]) && '.' !in parts[i] && ':' !in parts[i]
    ensures Trim(t) == t && ':' !in t && '.' in t
  {
    JoinFour(parts, '.');
    var p0, p3 := parts[0], parts[3];
    assert t[0] == p0[0];
    assert t[|t| - 1] == p3[|p3| - 1];
    TrimNoop(t);
  }

  /** And every accepted IPv4 address is written that way: its trimmed text is the dotted
      quad of its four values, each below 256. */
  lemma AcceptedIsDottedQuad(raw: string)
    requires IsIPv4(raw)
    ensures var parts := Split(Trim(raw), '.');
      && |parts| == 4
      && (forall i :: 0 <= i < 4 ==> IsDigits(parts[i]) && DecValue(parts[i]) < 256)
      && Trim(raw) == DottedQuad(DecValue(parts[0]), DecValue(parts[1]), DecValue(parts[2]), DecValue(parts[3]))
  {
    var t := Trim(raw);
    assert V4Verdict(t).ok;
    V4Accepted(t);
    CanonicalParts(t);
  }

  /** Four octets separated by dots are their values' renderings joined by dots. */
  lemma CanonicalParts(t: string)
    requires |Split(t, '.')| == 4 && forall i :: 0 <= i < 4 ==> Octet(Split(t, '.')[i])
    ensures var parts := Split(t, '.');
      && (forall i :: 0 <= i < 4 ==> IsDigits(parts[i]))
      && t == DottedQuad(DecValue(parts[0]), DecValue(parts[1]), DecValue(parts[2]), DecValue(parts[3]))
  {
    var parts := Split(t, '.');
    forall i | 0 <= i < 4
      ensures NatToString(DecValue(parts[i])) == parts[i]
    {
      NatToStringOfDecValue(parts[i]);
    }
    JoinSplit(t, '.');
    assert parts == [parts[0], parts[1], parts[2], parts[3]];
  }

  /** `k` colons. */
  function Colons(k: nat): (s: string)
    ensures |s| == k && forall i :: 0 <= i < k ==> s[i] == ':'
  {
    if k == 0 then [] else [':'] + Colons(k - 1)
  }

  /** `k` empty parts. */
  function EmptyParts(k: nat): (parts: seq<string>)
    ensures |parts| == k && forall i :: 0 <= i < k ==> parts[i] == []
  {
    if k == 0 then [] else [[]] + EmptyParts(k - 1)
  }

  lemma {:induction false} ColonSplit(k: nat)
    ensures Split(Colons(k), ':') == EmptyParts(k + 1)
  {
    if k > 0 {
      var s := Colons(k);
      assert s == [':'] + Colons(k - 1);
      assert IndexOf(s, ':') == 0;
      assert s[..0] == [] && s[1..] == Colons(k - 1);
      ColonSplit(k - 1);
      assert Split(s, ':') == [[]] + Split(Colons(k - 1), ':');
    }
  }

  /** `::` (the unspecified address) is accepted as IPv6, and so, loosely, is any run of two
      to seven colons. */
  lemma ColonRunsAccepted(k: nat)
    requires 2 <= k <= 7
    ensures IsIPv6(Colons(k))
  {
    var s := Colons(k);
    ColonRunsV6(k);
    TrimNoop(s);
    IsIPv6Plain(s);
  }

  lemma ColonRunsV6(k: nat)
    requires 2 <= k <= 7
    ensures V6Verdict(Colons(k)).ok
  {
    ColonSplit(k);
    V6Accepted(Colons(k));
  }
}
