/** is-card-safe/card.js: card numbers are reduced to their digits, checked with the Luhn
    algorithm (ISO/IEC 7812-1, Annex B), and matched against the brands' number ranges and
    lengths. */
module Card {
  import opened Builtins

  // ---------------------------------------------------------------- Luhn

  /** What one character adds to the Luhn sum: its code minus 48, doubled on every second
      position from the right, with 9 taken off a doubled value above 9. */
  function LuhnTerm(c: char, doubled: bool): int {
    var n := (c as int) - 48;
    if doubled then (if 2 * n > 9 then 2 * n - 9 else 2 * n) else n
  }

  /** The Luhn sum of `d`, from its rightmost character, whose term is doubled iff `alt`. */
  function LuhnSum(d: string, alt: bool): int
    decreases |d|
  {
    if d == [] then 0 else LuhnTerm(d[|d| - 1], alt) + LuhnSum(d[..|d| - 1], !alt)
  }

  /** The Luhn check: the sum is a multiple of 10 (the empty string passes). */
  predicate LuhnValid(d: string) {
    LuhnSum(d, false) % 10 == 0
  }

  /** `luhnOk(d)`: the loop from the right that updates `sum` and `alt`. */
  method LuhnOk(d: string) returns (ok: bool)
    ensures ok <==> LuhnValid(d)
  {
    var sum := 0;
    var alt := false;
    var i: int := |d| - 1;
    assert d[..i + 1] == d;
    while i >= 0
      invariant -1 <= i < |d|
      invariant sum + LuhnSum(d[..i + 1], alt) == LuhnSum(d, false)
      decreases i
    {
      assert d[..i + 1][..i] == d[..i];
      var n := (d[i] as int) - 48;
      if alt {
        n := n * 2;
        if n > 9 {
          n := n - 9;
        }
      }
      sum := sum + n;
      alt := !alt;
      i := i - 1;
    }
    assert d[..0] == [];
    ok := sum % 10 == 0;
  }

  lemma {:induction false} LuhnSumNonNegative(d: string, alt: bool)
    requires AllDigits(d)
    ensures 0 <= LuhnSum(d, alt) <= 9 * |d|
    decreases |d|
  {
    if d != [] {
      LuhnSumNonNegative(d[..|d| - 1], alt);
      LuhnSumNonNegative(d[..|d| - 1], !alt);
    }
  }

  /** Splitting the number: the right part is summed as it is, the left part with the parity
      shifted by the length of the right part. */
  lemma {:induction false} LuhnSumConcat(a: string, b: string, alt: bool)
    ensures LuhnSum(a + b, alt) == LuhnSum(b, alt) + LuhnSum(a, if |b| % 2 == 0 then alt else !alt)
    decreases |b|
  {
    if b == [] {
      assert a + b == a;
    } else {
      var b' := b[..|b| - 1];
      assert (a + b)[..|a + b| - 1] == a + b';
      assert (a + b)[|a + b| - 1] == b[|b| - 1];
      LuhnSumConcat(a, b', !alt);
    }
  }

  /** For every digit string there is exactly one check digit that completes it to a number
      passing the Luhn check. */
  lemma LuhnCheckDigit(p: string, c: char)
    requires AllDigits(p) && IsDigit(c)
    ensures LuhnValid(p + [c]) <==> DigitValue(c) == (10 - LuhnSum(p, true) % 10) % 10
  {
    var q := p + [c];
    assert q[..|q| - 1] == p;
    LuhnSumNonNegative(p, true);
  }

  /** The doubled term is a permutation of the digits modulo 10, so different digits at the
      same position always give different terms modulo 10. */
  lemma LuhnTermDistinct(x: char, y: char, alt: bool)
    requires IsDigit(x) && IsDigit(y) && x != y
    ensures (LuhnTerm(x, alt) - LuhnTerm(y, alt)) % 10 != 0
  {
  }

  /** The Luhn check detects every single-digit substitution: of two numbers that differ in
      one digit, at most one passes. */
  lemma LuhnDetectsSubstitution(a: string, x: char, y: char, b: string)
    requires IsDigit(x) && IsDigit(y) && x != y
    ensures !(LuhnValid(a + [x] + b) && LuhnValid(a + [y] + b))
  {
    var alt := |b| % 2 == 1;
    var u, v := a + [x], a + [y];
    LuhnSumConcat(u, b, false);
    LuhnSumConcat(v, b, false);
    assert u[..|u| - 1] == a && v[..|v| - 1] == a;
    assert LuhnSum(u, alt) == LuhnTerm(x, alt) + LuhnSum(a, !alt);
    assert LuhnSum(v, alt) == LuhnTerm(y, alt) + LuhnSum(a, !alt);
    LuhnTermDistinct(x, y, alt);
    if LuhnValid(u + b) {
      ShiftOffMultipleOfTen(LuhnSum(u + b, false), LuhnSum(v + b, false));
    }
  }

  lemma ShiftOffMultipleOfTen(p: int, q: int)
    requires p % 10 == 0 && (p - q) % 10 != 0
    ensures q % 10 != 0
  {
  }

  // ---------------------------------------------------------------- brands

  datatype Brand = Visa | Mastercard | Amex | Discover | Jcb | Diners | UnionPay | Maestro | Mir

  /** The brand's name in results and in the allow and block lists. */
  function BrandName(b: Brand): string {
    match b
    case Visa => "visa"
    case Mastercard => "mastercard"
    case Amex => "amex"
    case Discover => "discover"
    case Jcb => "jcb"
    case Diners => "diners"
    case UnionPay => "unionpay"
    case Maestro => "maestro"
    case Mir => "mir"
  }

  /** The position of the brand in the order `detectBrand` tries them. */
  function Rank(b: Brand): nat {
    match b
    case Visa => 0
    case Mastercard => 1
    case Amex => 2
    case Discover => 3
    case Jcb => 4
    case Diners => 5
    case UnionPay => 6
    case Maestro => 7
    case Mir => 8
  }

  /** `BRAND_LENGTHS`: the number lengths each brand allows. */
  function BrandLengths(b: Brand): seq<int> {
    match b
    case Visa => [13, 16, 19]
    case Mastercard => [16]
    case Amex => [15]
    case Discover => [16, 17, 18, 19]
    case Jcb => [16, 17, 18, 19]
    case Diners => [14, 15, 16]
    case UnionPay => [16, 17, 18, 19]
    case Maestro => [12, 13, 14, 15, 16, 17, 18, 19]
    case Mir => [16, 17, 18, 19]
  }

  predicate InRange(c: char, lo: char, hi: char) { lo <= c <= hi }

  /** `^4\d{12}(\d{3})?(\d{3})?$` */
  predicate VisaPattern(d: string) {
    AllDigits(d) && (|d| == 13 || |d| == 16 || |d| == 19) && d[0] == '4'
  }

  /** The 2-series alternative of the Mastercard pattern as written,
      `2(2[2-9]\d{2}|[3-6]\d{3}|7([01]\d{2}|20\d))\d{12}`: five characters of prefix, so the
      number has 17 digits. */
  predicate MastercardTwoSeriesAsWritten(d: string) {
    AllDigits(d) && |d| == 17 && d[0] == '2'
    && ((d[1] == '2' && InRange(d[2], '2', '9'))
        || InRange(d[1], '3', '6')
        || (d[1] == '7' && (d[2] == '0' || d[2] == '1' || (d[2] == '2' && d[3] == '0'))))
  }

  /** `5[1-5]\d{14}`: the 51-55 series, 16 digits. */
  predicate MastercardFiveSeries(d: string) {
    AllDigits(d) && |d| == 16 && d[0] == '5' && InRange(d[1], '1', '5')
  }

  /** The 2-series as its comment and the brand's length table intend: a prefix from 2221 to
      2720 and 16 digits. */
  predicate MastercardTwoSeries(d: string) {
    AllDigits(d) && |d| == 16 && 2221 <= Prefix4(d) <= 2720
  }

  /** The number formed by the first four digits. */
  function Prefix4(d: string): int
    requires |d| >= 4
  {
    1000 * (d[0] as int - 48) + 100 * (d[1] as int - 48) + 10 * (d[2] as int - 48) + (d[3] as int - 48)
  }

  /** The Mastercard pattern of the source. */
  predicate MastercardPatternAsWritten(d: string) {
    MastercardFiveSeries(d) || MastercardTwoSeriesAsWritten(d)
  }

  /** The Mastercard pattern with the 2-series corrected. */
  predicate MastercardPattern(d: string) {
    MastercardFiveSeries(d) || MastercardTwoSeries(d)
  }

  /** `^3[47]\d{13}$` */
  predicate AmexPattern(d: string) {
    AllDigits(d) && |d| == 15 && d[0] == '3' && (d[1] == '4' || d[1] == '7')
  }

  /** The three characters after `622` in the Discover pattern:
      `12[6-9]|1[3-9]\d|[2-8]\d{2}|9([01]\d|2[0-5])`, that is 126 to 925. */
  predicate Discover622(q: string)
    requires |q| == 3
  {
    (q[0] == '1' && q[1] == '2' && InRange(q[2], '6', '9'))
    || (q[0] == '1' && InRange(q[1], '3', '9'))
    || InRange(q[0], '2', '8')
    || (q[0] == '9' && (q[1] == '0' || q[1] == '1' || (q[1] == '2' && InRange(q[2], '0', '5'))))
  }

  /** `^(6011\d{12}|65\d{14}|64[4-9]\d{13}|622(...)\d{10,12})$` */
  predicate DiscoverPattern(d: string) {
    AllDigits(d)
    && ((|d| == 16 && ((d[0] == '6' && d[1] == '0' && d[2] == '1' && d[3] == '1')
                      || (d[0] == '6' && d[1] == '5')
                      || (d[0] == '6' && d[1] == '4' && InRange(d[2], '4', '9'))))
        || (16 <= |d| <= 18 && d[0] == '6' && d[1] == '2' && d[2] == '2' && Discover622(d[3..6])))
  }

  /** `^35(2[89]|[3-8]\d)\d{12,15}$` */
  predicate JcbPattern(d: string) {
    AllDigits(d) && 16 <= |d| <= 19 && d[0] == '3' && d[1] == '5'
    && ((d[2] == '2' && (d[3] == '8' || d[3] == '9')) || InRange(d[2], '3', '8'))
  }

  /** `^(3(0[0-5]\d{11}|095\d{10}|6\d{12}|[89]\d{12}))\d{0,2}$` */
  predicate DinersPattern(d: string) {
    AllDigits(d) && 14 <= |d| <= 16 && d[0] == '3'
    && ((d[1] == '0' && InRange(d[2], '0', '5')) || (d[1] == '0' && d[2] == '9' && d[3] == '5')
        || d[1] == '6' || d[1] == '8' || d[1] == '9')
  }

  /** `^62\d{14,17}$` */
  predicate UnionPayPattern(d: string) {
    AllDigits(d) && 16 <= |d| <= 19 && d[0] == '6' && d[1] == '2'
  }

  /** `^(50|56|57|58|63|67)\d{10,17}$` */
  predicate MaestroPattern(d: string) {
    AllDigits(d) && 12 <= |d| <= 19
    && ((d[0] == '5' && (d[1] == '0' || d[1] == '6' || d[1] == '7' || d[1] == '8'))
        || (d[0] == '6' && (d[1] == '3' || d[1] == '7')))
  }

  /** `^220[0-4]\d{12,15}$` */
  predicate MirPattern(d: string) {
    AllDigits(d) && 16 <= |d| <= 19 && d[0] == '2' && d[1] == '2' && d[2] == '0' && InRange(d[3], '0', '4')
  }

  /** `d` matches the brand's pattern, with the Mastercard 2-series as written when
      `asWritten` holds and corrected otherwise. */
  predicate Matches(b: Brand, d: string, asWritten: bool) {
    match b
    case Visa => VisaPattern(d)
    case Mastercard => if asWritten then MastercardPatternAsWritten(d) else MastercardPattern(d)
    case Amex => AmexPattern(d)
    case Discover => DiscoverPattern(d)
    case Jcb => JcbPattern(d)
    case Diners => DinersPattern(d)
    case UnionPay => UnionPayPattern(d)
    case Maestro => MaestroPattern(d)
    case Mir => MirPattern(d)
  }

  /** The order in which `detectBrand` tries the brands. */
  const BrandOrder: seq<Brand> := [Visa, Mastercard, Amex, Discover, Jcb, Diners, UnionPay, Maestro, Mir]

  lemma BrandOrderRank(b: Brand)
    ensures Rank(b) < |BrandOrder| && BrandOrder[Rank(b)] == b
  {
  }

  /** Each brand's rank is its position in the order. */
  lemma RankOfOrder(i: nat)
    requires i < |BrandOrder|
    ensures Rank(BrandOrder[i]) == i
  {
  }

  /** The first brand of `order` whose pattern matches `d`. */
  function FirstMatch(order: seq<Brand>, d: string, asWritten: bool): Option<Brand>
    decreases |order|
  {
    if order == [] then None
    else if Matches(order[0], d, asWritten) then Some(order[0])
    else FirstMatch(order[1..], d, asWritten)
  }

  /** `FirstMatch` finds the matching brand of least position, and finds none exactly when
      no brand of the order matches. */
  lemma {:induction false} FirstMatchSpec(order: seq<Brand>, d: string, asWritten: bool)
    ensures var r := FirstMatch(order, d, asWritten);
      && (r.None? <==> forall j :: 0 <= j < |order| ==> !Matches(order[j], d, asWritten))
      && (r.Some? ==> exists i :: 0 <= i < |order| && order[i] == r.value
                        && Matches(r.value, d, asWritten)
                        && forall j :: 0 <= j < i ==> !Matches(order[j], d, asWritten))
    decreases |order|
  {
    if order != [] && !Matches(order[0], d, asWritten) {
      var tail := order[1..];
      FirstMatchSpec(tail, d, asWritten);
      var r := FirstMatch(order, d, asWritten);
      assert forall j :: 0 < j < |order| ==> order[j] == tail[j - 1];
      if r.Some? {
        var i :| 0 <= i < |tail| && tail[i] == r.value && Matches(r.value, d, asWritten)
                 && forall j :: 0 <= j < i ==> !Matches(tail[j], d, asWritten);
        assert order[i + 1] == r.value;
        assert forall j :: 0 <= j < i + 1 ==> !Matches(order[j], d, asWritten);
      }
    } else if order != [] {
      assert order[0] == FirstMatch(order, d, asWritten).value;
    }
  }

  /** `detectBrand`, parametrised by which Mastercard pattern it uses. */
  function DetectBrandWith(d: string, asWritten: bool): Option<Brand> {
    FirstMatch(BrandOrder, d, asWritten)
  }

  /** The detected brand is the first, in the fixed order, whose pattern matches, and there
      is none exactly when no pattern matches. */
  lemma DetectBrandIsFirstMatch(d: string, asWritten: bool)
    ensures var r := DetectBrandWith(d, asWritten);
      && (r.None? <==> forall b :: !Matches(b, d, asWritten))
      && (r.Some? ==> Matches(r.value, d, asWritten))
      && (r.Some? ==> forall b :: Matches(b, d, asWritten) ==> Rank(r.value) <= Rank(b))
  {
    var r := DetectBrandWith(d, asWritten);
    FirstMatchSpec(BrandOrder, d, asWritten);
    forall b | Matches(b, d, asWritten)
      ensures r.Some? && Rank(r.value) <= Rank(b)
    {
      BrandOrderRank(b);
      if r.Some? {
        var i :| 0 <= i < |BrandOrder| && BrandOrder[i] == r.value
                 && forall j :: 0 <= j < i ==> !Matches(BrandOrder[j], d, asWritten);
        RankOfOrder(i);
      }
    }
  }

  /** `detectBrand` as written. */
  function DetectBrandAsWritten(d: string): Option<Brand> {
    DetectBrandWith(d, true)
  }

  /** `detectBrand` with the Mastercard 2-series corrected. */
  function DetectBrand(d: string): Option<Brand> {
    DetectBrandWith(d, false)
  }

  /** With the correction, every detected brand allows the number's length, so
      `length_not_allowed_for_brand` is never raised together with a detected brand. */
  lemma DetectedBrandHasAllowedLength(d: string)
    ensures DetectBrand(d).Some? ==> |d| in BrandLengths(DetectBrand(d).value)
  {
    DetectBrandIsFirstMatch(d, false);
  }

  /** As written, a 16-digit 2-series Mastercard number is not recognised at all, while a
      17-digit one is recognised and then rejected for its length. */
  lemma MastercardTwoSeriesAsWrittenFails()
    ensures DetectBrandAsWritten("2221000000000000") == None
    ensures DetectBrand("2221000000000000") == Some(Mastercard)
    ensures DetectBrandAsWritten("22210000000000000") == Some(Mastercard)
    ensures 17 !in BrandLengths(Mastercard)
  {
    var d16, d17 := "2221000000000000", "22210000000000000";
    DetectBrandIsFirstMatch(d16, true);
    assert forall b :: !Matches(b, d16, true);
    assert !Matches(Visa, d16, false) && Matches(Mastercard, d16, false);
    assert BrandOrder[1..][0] == Mastercard;
    assert !Matches(Visa, d17, true) && Matches(Mastercard, d17, true);
  }

  // ---------------------------------------------------------------- validation

  /** The options of `validateCard`; an absent list is `None` (an empty list is present). */
  datatype CardOptions = CardOptions(
    allowBrands: Option<seq<string>>,
    blockBrands: Option<seq<string>>,
    minLength: int,
    maxLength: int)

  function DefaultCardOptions(): CardOptions {
    CardOptions(None, None, 12, 19)
  }

  /** The issue codes `validateCard` reports. */
  datatype CardIssue =
    | Empty | NonDigitChars | TooShort | TooLong | UnknownBrand
    | LengthNotAllowedForBrand | BrandNotAllowed | BrandBlocked | LuhnFailed

  /** The issue's code as it appears in the result. */
  function IssueCode(i: CardIssue): string {
    match i
    case Empty => "empty"
    case NonDigitChars => "non_digit_chars"
    case TooShort => "too_short"
    case TooLong => "too_long"
    case UnknownBrand => "unknown_brand"
    case LengthNotAllowedForBrand => "length_not_allowed_for_brand"
    case BrandNotAllowed => "brand_not_allowed"
    case BrandBlocked => "brand_blocked"
    case LuhnFailed => "luhn_failed"
  }

  /** The result record: `normalized`, `brand` and `last4` are absent when `None`. */
  datatype CardResult = CardResult(
    ok: bool,
    normalized: Option<string>,
    brand: Option<Brand>,
    last4: Option<string>,
    issues: seq<CardIssue>)

  /** `s.slice(-4)` */
  function Last4(s: string): (r: string)
    ensures |r| == if |s| < 4 then |s| else 4
    ensures r == s[|s| - |r|..]
  {
    if |s| < 4 then s else s[|s| - 4..]
  }

  /** `res(ok, normalized, brand, issues)`: the normalized value only when ok, the last four
      characters of a non-empty normalized value, and the issues without repetitions. */
  function Res(ok: bool, normalized: Option<string>, brand: Option<Brand>, issues: seq<CardIssue>): (r: CardResult)
    ensures r.ok == ok && r.brand == brand
    ensures r.normalized == if ok then normalized else None
    ensures r.last4.Some? <==> normalized.Some? && normalized.value != []
    ensures r.last4.Some? ==> r.last4.value == Last4(normalized.value)
    ensures NoDuplicates(r.issues) && (NoDuplicates(issues) ==> r.issues == issues)
  {
    CardResult(ok, if ok then normalized else None, brand,
      if normalized.Some? && normalized.value != [] then Some(Last4(normalized.value)) else None,
      Uniq(issues))
  }

  /** There is no brand, or the brand allows the length. */
  predicate LengthAllowed(brand: Option<Brand>, n: int) {
    brand.Some? ==> n in BrandLengths(brand.value)
  }

  /** An allow list is given and the brand is not on it. */
  predicate NotAllowed(o: CardOptions, brand: Option<Brand>) {
    o.allowBrands.Some? && brand.Some? && BrandName(brand.value) !in o.allowBrands.value
  }

  /** A block list is given and the brand is on it. */
  predicate Blocked(o: CardOptions, brand: Option<Brand>) {
    o.blockBrands.Some? && brand.Some? && BrandName(brand.value) in o.blockBrands.value
  }

  /** One issue, pushed when its condition holds. */
  function If(cond: bool, issue: CardIssue): seq<CardIssue> {
    if cond then [issue] else []
  }

  /** The issues `validateCard` pushes, in order, for the digits `d`, its brand and the
      outcome of the Luhn check. */
  function IssuesFor(d: string, brand: Option<Brand>, luhn: bool, o: CardOptions): seq<CardIssue> {
    If(!IsDigits(d), NonDigitChars)
    + If(|d| < o.minLength, TooShort)
    + If(|d| > o.maxLength, TooLong)
    + If(brand.None?, UnknownBrand)
    + If(!LengthAllowed(brand, |d|), LengthNotAllowedForBrand)
    + If(NotAllowed(o, brand), BrandNotAllowed)
    + If(Blocked(o, brand), BrandBlocked)
    + If(!luhn, LuhnFailed)
  }

  /** The issues `validateCard` raises for the digits `d`: with the Mastercard pattern as
      written when `asWritten` holds, and with the 2-series corrected otherwise. */
  function CardIssues(d: string, o: CardOptions, asWritten: bool): seq<CardIssue> {
    IssuesFor(d, DetectBrandWith(d, asWritten), LuhnValid(d), o)
  }

  /** A card number of digits passes iff it is non-empty, within the length bounds, of a
      known brand whose lengths include its own, allowed and not blocked, and passes the
      Luhn check. */
  lemma CardIssuesMeaning(d: string, o: CardOptions, asWritten: bool)
    requires AllDigits(d)
    ensures var brand := DetectBrandWith(d, asWritten);
      CardIssues(d, o, asWritten) == [] <==>
        && d != [] && o.minLength <= |d| <= o.maxLength
        && brand.Some? && |d| in BrandLengths(brand.value)
        && (o.allowBrands.Some? ==> BrandName(brand.value) in o.allowBrands.value)
        && (o.blockBrands.Some? ==> BrandName(brand.value) !in o.blockBrands.value)
        && LuhnValid(d)
  {
    IssuesForMeaning(d, DetectBrandWith(d, asWritten), LuhnValid(d), o);
  }

  /** `non_digit_chars` is raised exactly when no digit is left, and no issue is raised
      twice; with the 2-series corrected a detected brand always allows the length, so
      `length_not_allowed_for_brand` is never raised. */
  lemma CardIssuesShape(d: string, o: CardOptions, asWritten: bool)
    requires AllDigits(d)
    ensures NonDigitChars in CardIssues(d, o, asWritten) <==> d == []
    ensures !asWritten ==> LengthNotAllowedForBrand !in CardIssues(d, o, asWritten)
    ensures NoDuplicates(CardIssues(d, o, asWritten))
  {
    var brand := DetectBrandWith(d, asWritten);
    DetectedBrandHasAllowedLength(d);
    IssuesForMeaning(d, brand, LuhnValid(d), o);
    IssuesForDistinct(d, brand, LuhnValid(d), o);
  }

  /** The verdicts differ on 2-series Mastercard numbers: a 16-digit one that passes the Luhn
      check is rejected as written for an unknown brand and accepted once corrected, and a
      17-digit one is rejected as written for its length. */
  lemma MastercardTwoSeriesVerdicts()
    ensures var d := "2221" + Zeros(11) + "9";
      && CardIssues(d, DefaultCardOptions(), true) == [UnknownBrand]
      && CardIssues(d, DefaultCardOptions(), false) == []
    ensures LengthNotAllowedForBrand in CardIssues("2221" + Zeros(13), DefaultCardOptions(), true)
  {
    var d16, d17 := "2221" + Zeros(11) + "9", "2221" + Zeros(13);
    TwoSeriesSixteenBrand(d16);
    TwoSeriesSixteenLuhn(d16);
    TwoSeriesSeventeenBrand(d17);
    IssuesForMeaning(d16, None, true, DefaultCardOptions());
    IssuesForMeaning(d17, Some(Mastercard), LuhnValid(d17), DefaultCardOptions());
    assert IsDigits(d16);
  }

  /** `n` characters `0`. */
  function Zeros(n: nat): (r: string)
    ensures |r| == n && AllDigits(r)
  {
    seq(n, _ => '0')
  }

  lemma {:induction false} LuhnSumZeros(n: nat, alt: bool)
    ensures LuhnSum(Zeros(n), alt) == 0
  {
    if n > 0 {
      assert Zeros(n)[..n - 1] == Zeros(n - 1);
      LuhnSumZeros(n - 1, !alt);
    }
  }

  lemma TwoSeriesSixteenBrand(d: string)
    requires d == "2221" + Zeros(11) + "9"
    ensures AllDigits(d) && |d| == 16
    ensures DetectBrandWith(d, true) == None && DetectBrandWith(d, false) == Some(Mastercard)
  {
    assert d[0] == '2' && d[1] == '2' && d[2] == '2' && d[3] == '1';
    DetectBrandIsFirstMatch(d, true);
    assert forall b :: !Matches(b, d, true);
    assert !Matches(Visa, d, false) && Matches(Mastercard, d, false);
    assert BrandOrder[1..][0] == Mastercard;
  }

  lemma TwoSeriesSixteenLuhn(d: string)
    requires d == "2221" + Zeros(11) + "9"
    ensures LuhnValid(d)
  {
    var p := "2221" + Zeros(11);
    assert d[..|d| - 1] == p && d[|d| - 1] == '9';
    LuhnSumConcat("2221", Zeros(11), true);
    LuhnSumZeros(11, true);
    LuhnSum2221();
  }

  lemma LuhnSum2221()
    ensures LuhnSum("2221", false) == 11
  {
    assert "2221"[..3] == "222" && "222"[..2] == "22" && "22"[..1] == "2" && "2"[..0] == [];
  }

  lemma TwoSeriesSeventeenBrand(d: string)
    requires d == "2221" + Zeros(13)
    ensures AllDigits(d) && |d| == 17
    ensures DetectBrandWith(d, true) == Some(Mastercard)
  {
    assert d[0] == '2' && d[1] == '2' && d[2] == '2' && d[3] == '1';
    assert !Matches(Visa, d, true) && Matches(Mastercard, d, true);
    assert BrandOrder[1..][0] == Mastercard;
  }

  lemma IssuesForMeaning(d: string, brand: Option<Brand>, luhn: bool, o: CardOptions)
    requires AllDigits(d)
    ensures IssuesFor(d, brand, luhn, o) == [] <==>
        && d != [] && o.minLength <= |d| <= o.maxLength
        && brand.Some? && |d| in BrandLengths(brand.value)
        && (o.allowBrands.Some? ==> BrandName(brand.value) in o.allowBrands.value)
        && (o.blockBrands.Some? ==> BrandName(brand.value) !in o.blockBrands.value)
        && luhn
    ensures NonDigitChars in IssuesFor(d, brand, luhn, o) <==> d == []
    ensures LengthNotAllowedForBrand in IssuesFor(d, brand, luhn, o) <==> !LengthAllowed(brand, |d|)
  {
    assert !IsDigits(d) <==> d == [];
    IssuesForDistinct(d, brand, luhn, o);
  }

  /** The position of the issue in the order `validateCard` raises them. */
  function IssueRank(i: CardIssue): nat {
    match i
    case Empty => 0
    case NonDigitChars => 1
    case TooShort => 2
    case TooLong => 3
    case UnknownBrand => 4
    case LengthNotAllowedForBrand => 5
    case BrandNotAllowed => 6
    case BrandBlocked => 7
    case LuhnFailed => 8
  }

  predicate RanksIncrease(xs: seq<CardIssue>) {
    forall i, j :: 0 <= i < j < |xs| ==> IssueRank(xs[i]) < IssueRank(xs[j])
  }

  predicate RanksBelow(xs: seq<CardIssue>, n: nat) {
    forall y :: y in xs ==> IssueRank(y) < n
  }

  lemma RanksIncreaseSnoc(xs: seq<CardIssue>, cond: bool, x: CardIssue)
    requires RanksIncrease(xs) && RanksBelow(xs, IssueRank(x))
    ensures RanksIncrease(xs + If(cond, x)) && RanksBelow(xs + If(cond, x), IssueRank(x) + 1)
  {
  }

  lemma RanksIncreaseDistinct(xs: seq<CardIssue>)
    requires RanksIncrease(xs)
    ensures NoDuplicates(xs)
  {
  }

  /** The issues are raised in a fixed order, so none is raised twice. */
  lemma IssuesForDistinct(d: string, brand: Option<Brand>, luhn: bool, o: CardOptions)
    ensures NoDuplicates(IssuesFor(d, brand, luhn, o))
  {
    RaisedInOrder(!IsDigits(d), |d| < o.minLength, |d| > o.maxLength, brand.None?,
      !LengthAllowed(brand, |d|),
      NotAllowed(o, brand),
      Blocked(o, brand),
      !luhn);
  }

  lemma RaisedInOrder(c1: bool, c2: bool, c3: bool, c4: bool, c5: bool, c6: bool, c7: bool, c8: bool)
    ensures NoDuplicates(If(c1, NonDigitChars) + If(c2, TooShort) + If(c3, TooLong) + If(c4, UnknownBrand)
      + If(c5, LengthNotAllowedForBrand) + If(c6, BrandNotAllowed) + If(c7, BrandBlocked) + If(c8, LuhnFailed))
  {
    var s1 := If(c1, NonDigitChars);
    var s2 := s1 + If(c2, TooShort);
    var s3 := s2 + If(c3, TooLong);
    var s4 := s3 + If(c4, UnknownBrand);
    var s5 := s4 + If(c5, LengthNotAllowedForBrand);
    var s6 := s5 + If(c6, BrandNotAllowed);
    var s7 := s6 + If(c7, BrandBlocked);
    RanksIncreaseSnoc(s1, c2, TooShort);
    RanksIncreaseSnoc(s2, c3, TooLong);
    RanksIncreaseSnoc(s3, c4, UnknownBrand);
    RanksIncreaseSnoc(s4, c5, LengthNotAllowedForBrand);
    RanksIncreaseSnoc(s5, c6, BrandNotAllowed);
    RanksIncreaseSnoc(s6, c7, BrandBlocked);
    RanksIncreaseSnoc(s7, c8, LuhnFailed);
    RanksIncreaseDistinct(s7 + If(c8, LuhnFailed));
  }

  /** The part of `validateCard` after the empty check: push each issue whose condition
      holds, and build the result with `res`. */
  method ValidateDigits(digits: string, o: CardOptions, asWritten: bool) returns (r: CardResult)
    ensures r.issues == IssuesFor(digits, DetectBrandWith(digits, asWritten), LuhnValid(digits), o)
    ensures r.ok <==> r.issues == []
    ensures r.normalized == (if r.ok then Some(digits) else None)
    ensures r.brand == DetectBrandWith(digits, asWritten)
    ensures r.last4 == (if digits == [] then None else Some(Last4(digits)))
  {
    var brand := DetectBrandWith(digits, asWritten);
    var luhn := LuhnOk(digits);
    var issues: seq<CardIssue> := If(!IsDigits(digits), NonDigitChars);
    issues := issues + If(|digits| < o.minLength, TooShort);
    issues := issues + If(|digits| > o.maxLength, TooLong);
    issues := issues + If(brand.None?, UnknownBrand);
    issues := issues + If(!LengthAllowed(brand, |digits|), LengthNotAllowedForBrand);
    issues := issues + If(NotAllowed(o, brand), BrandNotAllowed);
    issues := issues + If(Blocked(o, brand), BrandBlocked);
    issues := issues + If(!luhn, LuhnFailed);
    assert issues == IssuesFor(digits, brand, luhn, o);
    IssuesForDistinct(digits, brand, luhn, o);
    r := Res(|issues| == 0, Some(digits), brand, issues);
  }

  /** `validateCard(input, opts)`: an input that is empty once trimmed gives the single issue
      `empty`; otherwise the digits left of it are validated. `asWritten` selects the
      program's Mastercard pattern or the corrected one. */
  method ValidateCard(input: string, o: CardOptions, asWritten: bool) returns (r: CardResult)
    ensures Trim(input) == [] ==> r == CardResult(false, None, None, None, [Empty])
    ensures Trim(input) != [] ==>
      var d := DigitsOnly(Trim(input));
      && r.issues == CardIssues(d, o, asWritten)
      && (r.ok <==> r.issues == [])
      && r.normalized == (if r.ok then Some(d) else None)
      && r.brand == DetectBrandWith(d, asWritten)
      && r.last4 == (if d == [] then None else Some(Last4(d)))
  {
    var raw := Trim(input);
    if raw == [] {
      r := Res(false, None, None, [Empty]);
    } else {
      r := ValidateDigits(DigitsOnly(raw), o, asWritten);
    }
  }

  /** `n` characters `1`. */
  function Ones(n: nat): (r: string)
    ensures |r| == n && AllDigits(r)
  {
    seq(n, _ => '1')
  }

  /** In a run of ones every doubled position adds 2 and every other one adds 1. */
  lemma {:induction false} LuhnSumOnes(n: nat, alt: bool)
    ensures LuhnSum(Ones(n), alt) == n + (if alt then (n + 1) / 2 else n / 2)
  {
    if n > 0 {
      assert Ones(n)[..n - 1] == Ones(n - 1);
      LuhnSumOnes(n - 1, !alt);
    }
  }

  /** The example of the source: `4111 1111 1111 1111` is a Visa number that passes. */
  lemma VisaExample()
    ensures var d := "4" + Ones(15);
      && DetectBrandAsWritten(d) == Some(Visa) && DetectBrand(d) == Some(Visa)
      && LuhnValid(d)
      && CardIssues(d, DefaultCardOptions(), true) == []
      && CardIssues(d, DefaultCardOptions(), false) == []
  {
    var d := "4" + Ones(15);
    LuhnSumConcat("4", Ones(15), false);
    LuhnSumOnes(15, false);
    assert LuhnSum(d, false) == 30;
    assert VisaPattern(d);
  }
}
