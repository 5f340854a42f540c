/** is-phone-e164/phone.js: normalisation of a telephone number towards the international
    format of ITU-T Recommendation E.164 (a `+`, then at most 15 digits), and the strict
    check of that format. */
module Phone {
  import opened Builtins

  // ---------------------------------------------------------------- normalizePhone

  /** `[()\-\s._]`: the separators removed from a number. */
  predicate Separator(c: char) {
    c in "()-._" || IsWs(c)
  }

  predicate NotSeparator(c: char) { !Separator(c) }

  predicate NotPlus(c: char) { c != '+' }

  /** The characters a normalized number keeps after its leading `+`. */
  predicate Dialled(c: char) { !Separator(c) && c != '+' }

  /** `.replace(/^00/, '+')`: the international call prefix `00` becomes `+`. */
  function CallPrefix(d: string): string {
    if |d| >= 2 && d[0] == '0' && d[1] == '0' then ['+'] + d[2..] else d
  }

  /** Whether the number, once its separators are gone, starts with `00`. */
  predicate LeadsWith00(s: string) {
    var e := Filter(s, NotSeparator);
    |e| >= 2 && e[0] == '0' && e[1] == '0'
  }

  /** What a number keeps: its characters less the separators, the `00` of an
      international call prefix and every `+`. */
  function Significant(s: string): string {
    var e := Filter(s, NotSeparator);
    Filter(if LeadsWith00(s) then e[2..] else e, NotPlus)
  }

  /** What follows the single leading `+`: the rest without its own leading `+`, and
      without any other `+`. */
  function AfterPlus(d: string): string {
    if d != [] && d[0] == '+' then Filter(d[1..], NotPlus) else Filter(d, NotPlus)
  }

  /** `normalizePhone(input)`. */
  function NormalizePhone(input: string): string {
    var s := Trim(input);
    if s == [] then [] else ['+'] + AfterPlus(CallPrefix(Filter(s, NotSeparator)))
  }

  /** Filtering twice is filtering once by both conditions. */
  lemma {:induction false} FilterTwice(s: string)
    ensures Filter(Filter(s, NotSeparator), NotPlus) == Filter(s, Dialled)
    decreases |s|
  {
    if s != [] {
      FilterTwice(s[1..]);
      var head := if NotSeparator(s[0]) then [s[0]] else [];
      FilterConcat(head, Filter(s[1..], NotSeparator), NotPlus);
    }
  }

  /** What the normalized number holds: nothing for a blank input, otherwise a `+` and the
      significant characters; without a call prefix those are exactly the characters that
      are neither a separator nor a `+`. */
  lemma NormalizePhoneContent(input: string)
    ensures var s := Trim(input);
      NormalizePhone(input) == if s == [] then [] else ['+'] + Significant(s)
    ensures !LeadsWith00(Trim(input)) ==> Significant(Trim(input)) == Filter(Trim(input), Dialled)
  {
    var s := Trim(input);
    FilterTwice(s);
    PlusOnce(Filter(s, NotSeparator));
  }

  /** After the call prefix, one `+` is put in front and every other `+` dropped. */
  lemma PlusOnce(e: string)
    ensures AfterPlus(CallPrefix(e))
      == Filter(if |e| >= 2 && e[0] == '0' && e[1] == '0' then e[2..] else e, NotPlus)
  {
    if |e| >= 2 && e[0] == '0' && e[1] == '0' {
      var d := ['+'] + e[2..];
      assert CallPrefix(e) == d && d[0] == '+' && d[1..] == e[2..];
    } else if e != [] && e[0] == '+' {
      assert CallPrefix(e) == e;
      assert e == [e[0]] + e[1..];
      FilterConcat([e[0]], e[1..], NotPlus);
      assert Filter([e[0]], NotPlus) == [];
    } else {
      assert CallPrefix(e) == e;
    }
  }

  /** Every significant character is neither a separator nor a `+`. */
  lemma SignificantDialled(s: string)
    ensures forall i :: 0 <= i < |Significant(s)| ==> Dialled(Significant(s)[i])
  {
    var e := Filter(s, NotSeparator);
    var x := if LeadsWith00(s) then e[2..] else e;
    FilterKeeps(s, NotSeparator);
    FilterKeeps(x, NotPlus);
    forall i | 0 <= i < |Significant(s)|
      ensures Dialled(Significant(s)[i])
    {
      var c := Significant(s)[i];
      assert c in x;
      var j :| 0 <= j < |x| && x[j] == c;
      assert LeadsWith00(s) ==> x[j] == e[j + 2];
    }
  }

  /** The result is empty exactly for a blank input; any other result is one `+` followed by
      characters none of which is a `+` or a separator. */
  lemma NormalizePhoneShape(input: string)
    ensures NormalizePhone(input) == [] <==> Trim(input) == []
    ensures var r := NormalizePhone(input);
      r != [] ==> r[0] == '+' && forall i :: 1 <= i < |r| ==> Dialled(r[i])
  {
    NormalizePhoneContent(input);
    SignificantDialled(Trim(input));
  }

  /** Normalizing a normalized number changes nothing. */
  lemma NormalizePhoneIdempotent(input: string)
    ensures NormalizePhone(NormalizePhone(input)) == NormalizePhone(input)
  {
    var r := NormalizePhone(input);
    NormalizePhoneShape(input);
    if r != [] {
      NormalizedIsPlain(r);
    }
  }

  /** A `+` followed by dialled characters is left alone by normalization. */
  lemma NormalizedIsPlain(r: string)
    requires r != [] && r[0] == '+' && forall i :: 1 <= i < |r| ==> Dialled(r[i])
    ensures Trim(r) == r
    ensures NormalizePhone(r) == r
  {
    PlainUntrimmed(r);
    assert r == [r[0]] + r[1..];
    FilterKeepsAll(r, NotSeparator);
    FilterKeepsAll(r[1..], NotPlus);
  }

  lemma PlainUntrimmed(r: string)
    requires r != [] && r[0] == '+' && forall i :: 1 <= i < |r| ==> Dialled(r[i])
    ensures Trim(r) == r
  {
    assert !IsWs(r[|r| - 1]) by {
      if |r| > 1 {
        assert Dialled(r[|r| - 1]);
      }
    }
    TrimNoop(r);
  }

  // ---------------------------------------------------------------- isE164

  /** The digits of an E.164 number: 7 to 15 ASCII digits, the first one not `0`. */
  predicate E164Digits(t: string) {
    7 <= |t| <= 15 && IsDigits(t) && t[0] != '0'
  }

  /** `isE164(input)`: `/^\+[1-9]\d{6,14}$/` on the trimmed input. */
  predicate IsE164(input: string) {
    var v := Trim(input);
    v != [] && v[0] == '+' && E164Digits(v[1..])
  }

  /** A number passes exactly when it is `+` followed by the decimal rendering of a number
      of 7 to 15 digits, that is one from 10^6 up to but not including 10^15. */
  lemma E164ByValue(input: string)
    ensures IsE164(input) <==>
      exists n: nat :: Pow10(6) <= n < Pow10(15) && Trim(input) == ['+'] + NatToString(n)
  {
    var v := Trim(input);
    if IsE164(input) {
      var n := E164Value(v[1..]);
      assert v == ['+'] + v[1..];
    }
    if exists n: nat :: Pow10(6) <= n < Pow10(15) && v == ['+'] + NatToString(n) {
      var n: nat :| Pow10(6) <= n < Pow10(15) && v == ['+'] + NatToString(n);
      assert v[1..] == NatToString(n);
      ValueE164(n);
    }
  }

  /** The digits of an E.164 number render a value in range. */
  lemma E164Value(t: string) returns (n: nat)
    requires E164Digits(t)
    ensures Pow10(6) <= n < Pow10(15) && NatToString(n) == t
  {
    n := DecValue(t);
    NatToStringOfDecValue(t);
    DecValueLength(t);
    Pow10Monotone(6, |t| - 1);
    Pow10Monotone(|t|, 15);
  }

  /** A value in range renders as the digits of an E.164 number. */
  lemma ValueE164(n: nat)
    requires Pow10(6) <= n < Pow10(15)
    ensures E164Digits(NatToString(n))
  {
    var t := NatToString(n);
    DecValueLength(t);
    if |t| < 7 {
      Pow10Monotone(|t|, 6);
    }
    if |t| > 15 {
      Pow10Monotone(15, |t| - 1);
    }
  }

  /** A digit string of length k without a leading zero is worth from 10^(k-1) up to but
      not including 10^k. */
  lemma {:induction false} DecValueLength(t: string)
    requires IsDigits(t) && t[0] != '0'
    ensures Pow10(|t| - 1) <= DecValue(t) < Pow10(|t|)
    decreases |t|
  {
    DecValueBelow(t);
    if |t| > 1 {
      DecValueLength(t[..|t| - 1]);
    }
  }

  lemma {:induction false} Pow10Monotone(a: nat, b: nat)
    requires a <= b
    ensures Pow10(a) <= Pow10(b)
    decreases b
  {
    if a < b {
      Pow10Monotone(a, b - 1);
    }
  }

  // ---------------------------------------------------------------- validateOptionalE164

  /** `validateOptionalE164(input)`. */
  predicate ValidateOptionalE164(input: string) {
    var v := NormalizePhone(input);
    v == [] || IsE164(v)
  }

  /** The optional check passes exactly for a blank input, or for one whose significant
      characters are 7 to 15 digits not starting with `0`. */
  lemma ValidateOptionalMeaning(input: string)
    ensures var s := Trim(input);
      ValidateOptionalE164(input) <==> s == [] || E164Digits(Significant(s))
  {
    var s := Trim(input);
    var r := NormalizePhone(input);
    NormalizePhoneContent(input);
    NormalizePhoneShape(input);
    if r != [] {
      NormalizedIsPlain(r);
    }
  }
}
