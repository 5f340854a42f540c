/** is-email-safe/email.js and index.js: a conservative ASCII check of an address
    `local@domain`, a subset of the addr-spec of section 3.4.1 of RFC 5322. The local part is
    a dot-atom (section 3.2.3 of RFC 5322), the domain two or more dot-separated labels
    ending in an alphabetic top-level label. A non-string argument is `None`. */
module Email {
  import opened Builtins

  // ---------------------------------------------------------------- normalizeEmail

  /** `normalizeEmail(input)`: trimmed, then lower-cased. */
  function NormalizeEmail(input: string): string {
    LowerStr(Trim(input))
  }

  lemma LowerKeepsWs(c: char)
    ensures IsWs(ToLower(c)) <==> IsWs(c)
  {
  }

  /** A normalized address has no upper-case letter and no surrounding whitespace, and
      normalizing it again changes nothing. */
  lemma NormalizeEmailIdempotent(input: string)
    ensures var n := NormalizeEmail(input);
      && (forall i :: 0 <= i < |n| ==> !IsUpper(n[i]))
      && Trim(n) == n
      && NormalizeEmail(n) == n
  {
    var t := Trim(input);
    var n := LowerStr(t);
    if t != [] {
      LowerKeepsWs(t[0]);
      LowerKeepsWs(t[|t| - 1]);
    }
    TrimNoop(n);
    assert LowerStr(n) == n;
  }

  // ---------------------------------------------------------------- character classes

  /** `[A-Za-z0-9!#$%&'*+/=?^_`{|}~.-]`: the atext of RFC 5322, and the dot. */
  predicate LocalChar(c: char) {
    IsAlnum(c) || c in "!#$%&'*+/=?^_`{|}~.-"
  }

  /** `[A-Za-z0-9.-]` */
  predicate DomainChar(c: char) {
    IsAlnum(c) || c == '.' || c == '-'
  }

  /** `/^[...]+$/.test(s)` for the class `p`. */
  predicate OneOrMore(s: string, p: char -> bool) {
    |s| > 0 && forall i :: 0 <= i < |s| ==> p(s[i])
  }

  // ---------------------------------------------------------------- dots

  /** Two dots side by side, by position. */
  predicate DoubleDotAt(s: string) {
    exists i :: 0 <= i < |s| - 1 && s[i] == '.' && s[i + 1] == '.'
  }

  /** `s.includes('..')` finds two dots side by side. */
  lemma IncludesDoubleDot(s: string)
    ensures IsInfix("..", s) <==> DoubleDotAt(s)
  {
    if IsInfix("..", s) {
      var k := InfixFound("..", s);
      assert s[k] == ".."[0] && s[k + 1] == ".."[1];
    }
    if DoubleDotAt(s) {
      var i :| 0 <= i < |s| - 1 && s[i] == '.' && s[i + 1] == '.';
      assert s[i..i + 2] == "..";
      InfixAt("..", s, i);
    }
  }

  /** No piece between dots is empty. */
  predicate PiecesNonEmpty(s: string) {
    forall i :: 0 <= i < |Split(s, '.')| ==> Split(s, '.')[i] != []
  }

  /** The dot rules: non-empty, no dot at either end, no two dots side by side. */
  predicate DotShape(s: string) {
    |s| > 0 && s[0] != '.' && s[|s| - 1] != '.' && !DoubleDotAt(s)
  }

  /** The dot rules hold exactly when every dot-separated piece is non-empty. */
  lemma {:induction false} DotShapeIffPieces(s: string)
    ensures DotShape(s) <==> PiecesNonEmpty(s)
    decreases |s|
  {
    var k := IndexOf(s, '.');
    if k >= 0 {
      PiecesStep(s, k);
      DotShapeStep(s, k);
      DotShapeIffPieces(s[k + 1..]);
    } else {
      assert Split(s, '.') == [s];
      forall i | 0 <= i < |s|
        ensures s[i] != '.'
      {
        assert s[i] in s;
      }
      assert PiecesNonEmpty(s) <==> s != [] by {
        assert Split(s, '.')[0] == s;
      }
      assert !DoubleDotAt(s);
    }
  }

  /** Cutting at the first dot: every piece is non-empty exactly when the one before the
      dot is and every piece after it is. */
  lemma PiecesStep(s: string, k: int)
    requires k == IndexOf(s, '.') && k >= 0
    ensures PiecesNonEmpty(s) <==> k > 0 && PiecesNonEmpty(s[k + 1..])
  {
    SplitStep(s, '.', k);
    var rest := Split(s[k + 1..], '.');
    var all := Split(s, '.');
    assert all == [s[..k]] + rest;
    assert |all[0]| == k;
    if PiecesNonEmpty(s) {
      forall i | 0 <= i < |rest|
        ensures rest[i] != []
      {
        assert all[i + 1] == rest[i];
      }
    }
    if k > 0 && PiecesNonEmpty(s[k + 1..]) {
      forall i | 0 <= i < |all|
        ensures all[i] != []
      {
        if i > 0 {
          assert all[i] == rest[i - 1];
        }
      }
    }
  }

  /** Cutting at the first dot: the whole has the dot shape exactly when the part before
      the dot is non-empty and the part after it has the dot shape. */
  lemma DotShapeStep(s: string, k: nat)
    requires k < |s| && s[k] == '.' && '.' !in s[..k]
    ensures DotShape(s) <==> k > 0 && DotShape(s[k + 1..])
  {
    var b := s[k + 1..];
    DoubleDotStep(s, k);
    assert k > 0 ==> s[0] == s[..k][0];
    if b != [] {
      assert s[|s| - 1] == b[|b| - 1];
    }
  }

  /** Two dots side by side in the whole are the dot at the cut followed by a dot, or two
      dots side by side after the cut. */
  lemma DoubleDotStep(s: string, k: nat)
    requires k < |s| && s[k] == '.' && '.' !in s[..k]
    ensures DoubleDotAt(s) <==>
      (k + 1 < |s| && s[k + 1] == '.') || DoubleDotAt(s[k + 1..])
  {
    var b := s[k + 1..];
    if DoubleDotAt(s) {
      var i :| 0 <= i < |s| - 1 && s[i] == '.' && s[i + 1] == '.';
      assert i >= k;
      if i > k {
        assert b[i - k - 1] == '.' && b[i - k] == '.';
      }
    }
    if DoubleDotAt(b) {
      var j :| 0 <= j < |b| - 1 && b[j] == '.' && b[j + 1] == '.';
      assert s[k + 1 + j] == '.' && s[k + 2 + j] == '.';
    }
  }

  // ---------------------------------------------------------------- isEmail (email.js)

  /** The local-part checks: at most 64 characters of the class, no dot at either end,
      no `..`. */
  predicate LocalOk(local: string) {
    && |local| <= 64
    && OneOrMore(local, LocalChar)
    && local[0] != '.' && local[|local| - 1] != '.'
    && !IsInfix("..", local)
  }

  /** A label of the domain: 1 to 63 characters, no hyphen at either end. */
  predicate LabelOk(p: string) {
    0 < |p| <= 63 && p[0] != '-' && p[|p| - 1] != '-'
  }

  /** `/^[A-Za-z]{2,63}$/` */
  predicate TopLabel(p: string) {
    2 <= |p| <= 63 && forall i :: 0 <= i < |p| ==> IsLetter(p[i])
  }

  /** The domain checks of email.js. */
  predicate DomainOk(domain: string) {
    && OneOrMore(domain, DomainChar)
    && !IsInfix("..", domain)
    && var parts := Split(domain, '.');
      && |parts| >= 2
      && (forall i :: 0 <= i < |parts| ==> LabelOk(parts[i]))
      && TopLabel(parts[|parts| - 1])
  }

  /** `@` present, neither first nor last, and the text before it passes the local-part
      checks. */
  predicate LocalOfOk(s: string) {
    var at := IndexOf(s, '@');
    0 < at < |s| - 1 && LocalOk(s[..at])
  }

  /** The second element of `s.split('@')`: the text between the first `@` and the next
      (what `const [local, domain] = s.split('@')` binds to `domain`; the rest is ignored). */
  function DomainOf(s: string): (d: string)
    requires '@' in s
    ensures '@' !in d
  {
    var at := IndexOf(s, '@');
    SplitPartsLackSep(s[at + 1..], '@');
    Split(s[at + 1..], '@')[0]
  }

  /** `isEmail(input)` of email.js. */
  predicate IsEmail(input: Option<string>) {
    && input.Some?
    && var s := Trim(input.value);
      0 < |s| <= 254 && LocalOfOk(s) && DomainOk(DomainOf(s))
  }

  /** `split('@')` binds the text before the first `@` to `local` and the text up to the
      next `@` to `domain`. */
  lemma SplitAtBinds(s: string)
    requires '@' in s
    ensures var at := IndexOf(s, '@');
      && Split(s, '@')[0] == s[..at]
      && |Split(s, '@')| >= 2
      && Split(s, '@')[1] == DomainOf(s)
  {
    SplitStep(s, '@', IndexOf(s, '@'));
  }

  /** The local part passes exactly when it is at most 64 characters of the class and a
      dot-atom: dot-separated pieces, none of them empty. */
  lemma LocalIsDotAtom(local: string)
    ensures LocalOk(local) <==>
      && |local| <= 64 && OneOrMore(local, LocalChar)
      && PiecesNonEmpty(local)
  {
    IncludesDoubleDot(local);
    DotShapeIffPieces(local);
  }

  /** The `..` test on the domain never decides anything: non-empty labels already exclude
      two dots side by side, and dots at either end. */
  lemma DomainDoubleDotImplied(domain: string)
    requires forall i :: 0 <= i < |Split(domain, '.')| ==> LabelOk(Split(domain, '.')[i])
    ensures !IsInfix("..", domain) && domain != [] && domain[0] != '.' && domain[|domain| - 1] != '.'
  {
    assert PiecesNonEmpty(domain);
    DotShapeIffPieces(domain);
    IncludesDoubleDot(domain);
  }

  /** `validateEmail` and `isEmailSafe` are the same function as `isEmail`; an accepted
      address has a non-empty local part, a domain of at least two labels, and is at most
      254 characters once trimmed. */
  lemma AcceptedShape(input: Option<string>)
    requires IsEmail(input)
    ensures var s := Trim(input.value); var at := IndexOf(s, '@');
      && 0 < at && at + 1 < |s| <= 254
      && PiecesNonEmpty(s[..at])
      && |Split(DomainOf(s), '.')| >= 2
  {
    var s := Trim(input.value);
    LocalIsDotAtom(s[..IndexOf(s, '@')]);
  }

  // ---------------------------------------------------------------- isEmail (index.js)

  /** The label test of index.js as written. The first `some` calls `p.starts_with?.('-')`,
      a method strings do not have, so it only looks for empty or over-long labels; either
      way the branch then rejects only a label with a hyphen at one end. */
  predicate DomainOkAsWritten(domain: string) {
    && OneOrMore(domain, DomainChar)
    && !IsInfix("..", domain)
    && var parts := Split(domain, '.');
      && |parts| >= 2
      && (forall i :: 0 <= i < |parts| ==>
            !(|parts[i]| > 0 && (parts[i][0] == '-' || parts[i][|parts[i]| - 1] == '-')))
      && TopLabel(parts[|parts| - 1])
  }

  /** `isEmail(input)` of index.js, as written. */
  predicate IsEmailIndexAsWritten(input: Option<string>) {
    && input.Some?
    && var s := Trim(input.value);
      0 < |s| <= 254 && LocalOfOk(s) && DomainOkAsWritten(DomainOf(s))
  }

  /** The evidently intended index.js check is the one of email.js, `IsEmail`. The check as
      written accepts everything that one does, and more: exactly the domains whose only
      fault is an empty or over-long label. */
  lemma IndexAsWrittenIsLooser(domain: string)
    ensures DomainOk(domain) <==>
      && DomainOkAsWritten(domain)
      && forall i :: 0 <= i < |Split(domain, '.')| ==> 0 < |Split(domain, '.')[i]| <= 63
  {
  }

  /** `local@domain` with `@` in neither part is cut into those two parts. */
  lemma AddressParts(local: string, domain: string)
    requires '@' !in local && '@' !in domain
    ensures var s := local + ['@'] + domain;
      && IndexOf(s, '@') == |local|
      && s[..|local|] == local
      && DomainOf(s) == domain
  {
    var s := local + ['@'] + domain;
    IndexOfAfter(local, '@', domain);
    assert s[..|local|] == local && s[|local| + 1..] == domain;
    SplitHead(domain, '@');
  }

  /** Conversely, a local part that passes, `@`, and a domain without `@` form an address
      that is judged by its domain alone, under either label rule. */
  lemma AddressJudgedByDomain(local: string, domain: string)
    requires LocalOk(local) && '@' !in domain && domain != [] && !IsWs(domain[|domain| - 1])
    requires |local| + 1 + |domain| <= 254
    ensures IsEmail(Some(local + ['@'] + domain)) <==> DomainOk(domain)
    ensures IsEmailIndexAsWritten(Some(local + ['@'] + domain)) <==> DomainOkAsWritten(domain)
  {
    var s := local + ['@'] + domain;
    LocalLacksAt(local);
    assert s[0] == local[0] && s[|s| - 1] == domain[|domain| - 1];
    TrimNoop(s);
    AddressParts(local, domain);
  }

  lemma LocalLacksAt(local: string)
    requires OneOrMore(local, LocalChar)
    ensures '@' !in local && !IsWs(local[0])
  {
    forall i | 0 <= i < |local|
      ensures local[i] != '@' && !IsWs(local[i])
    {
      assert LocalChar(local[i]);
    }
  }

  /** A one-letter local part passes. */
  lemma LetterLocal(x: char)
    requires IsLetter(x)
    ensures LocalOk([x])
  {
    IncludesDoubleDot([x]);
  }

  /** `a@.b.co` and every address of that shape: the leading dot makes an empty first
      label, which index.js accepts and email.js does not. */
  lemma EmptyLabelAcceptedAsWritten(x: char, y: char, t: char, u: char)
    requires IsLetter(x) && IsLetter(y) && IsLetter(t) && IsLetter(u)
    ensures IsEmailIndexAsWritten(Some([x] + ['@'] + ['.', y, '.', t, u]))
    ensures !IsEmail(Some([x] + ['@'] + ['.', y, '.', t, u]))
  {
    LetterLocal(x);
    AddressJudgedByDomain([x], ['.', y, '.', t, u]);
    EmptyLabelDomain(y, t, u);
  }

  lemma EmptyLabelDomain(y: char, t: char, u: char)
    requires IsLetter(y) && IsLetter(t) && IsLetter(u)
    ensures DomainOkAsWritten(['.', y, '.', t, u])
    ensures !DomainOk(['.', y, '.', t, u])
  {
    var d := ['.', y, '.', t, u];
    EmptyLabelPieces(y, t, u);
    var parts := Split(d, '.');
    assert parts[|parts| - 1] == [t, u];
    assert !LabelOk(parts[0]);
  }

  lemma EmptyLabelPieces(y: char, t: char, u: char)
    requires IsLetter(y) && IsLetter(t) && IsLetter(u)
    ensures Split(['.', y, '.', t, u], '.') == [[], [y], [t, u]]
    ensures !IsInfix("..", ['.', y, '.', t, u])
  {
    EmptyLabelSplit(y, t, u);
    var d := ['.', y, '.', t, u];
    IncludesDoubleDot(d);
    assert y != '.' && t != '.';
    assert !DoubleDotAt(d);
  }

  lemma EmptyLabelSplit(y: char, t: char, u: char)
    requires IsLetter(y) && IsLetter(t) && IsLetter(u)
    ensures Split(['.', y, '.', t, u], '.') == [[], [y], [t, u]]
  {
    var d := ['.', y, '.', t, u];
    assert IndexOf(d, '.') == 0;
    SplitStep(d, '.', 0);
    assert d[..0] == [] && d[1..] == [y] + ['.'] + [t, u];
    DotLabels([y], [t, u]);
  }

  /** Two dot-free labels joined by one dot split back into the two. */
  lemma DotLabels(a: string, b: string)
    requires '.' !in a && '.' !in b
    ensures Split(a + ['.'] + b, '.') == [a, b]
  {
    var s := a + ['.'] + b;
    IndexOfAfter(a, '.', b);
    assert s[..|a|] == a && s[|a| + 1..] == b;
  }

  /** `a@b.co`, the first address the tests expect to pass, and every address of that
      shape pass. */
  lemma ShortAddressAccepted(x: char, y: char, t: char, u: char)
    requires IsLetter(x) && IsLetter(y) && IsLetter(t) && IsLetter(u)
    ensures IsEmail(Some([x] + ['@'] + [y, '.', t, u]))
  {
    LetterLocal(x);
    AddressJudgedByDomain([x], [y, '.', t, u]);
    ShortDomain(y, t, u);
  }

  lemma ShortDomain(y: char, t: char, u: char)
    requires IsLetter(y) && IsLetter(t) && IsLetter(u)
    ensures DomainOk([y, '.', t, u])
  {
    var d := [y, '.', t, u];
    assert d == [y] + ['.'] + [t, u];
    DotLabels([y], [t, u]);
    IncludesDoubleDot(d);
  }

  /** `a@-b.co` of the tests, and every address of that shape, fail under both label
      rules. */
  lemma HyphenLabelRejected(x: char, y: char, t: char, u: char)
    requires IsLetter(x) && IsLetter(y) && IsLetter(t) && IsLetter(u)
    ensures !IsEmailIndexAsWritten(Some([x] + ['@'] + ['-', y, '.', t, u]))
    ensures !IsEmail(Some([x] + ['@'] + ['-', y, '.', t, u]))
  {
    LetterLocal(x);
    AddressJudgedByDomain([x], ['-', y, '.', t, u]);
    HyphenDomain(y, t, u);
  }

  lemma HyphenDomain(y: char, t: char, u: char)
    requires IsLetter(y) && IsLetter(t) && IsLetter(u)
    ensures !DomainOkAsWritten(['-', y, '.', t, u]) && !DomainOk(['-', y, '.', t, u])
  {
    var d := ['-', y, '.', t, u];
    assert d == ['-', y] + ['.'] + [t, u];
    DotLabels(['-', y], [t, u]);
    var parts := Split(d, '.');
    assert parts[0] == ['-', y] && parts[0][0] == '-';
  }

  /** `a@b` of the tests, and every address whose domain is one label, fail. */
  lemma SingleLabelRejected(x: char, y: char)
    requires IsLetter(x) && IsLetter(y)
    ensures !IsEmailIndexAsWritten(Some([x] + ['@'] + [y]))
    ensures !IsEmail(Some([x] + ['@'] + [y]))
  {
    LetterLocal(x);
    AddressJudgedByDomain([x], [y]);
    assert Split([y], '.') == [[y]];
  }
}
