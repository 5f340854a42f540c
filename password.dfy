/** is-password-safe/password.js: a password strength check. Besides length and character
    classes it looks for runs of consecutive code points and keyboard rows, repeated blocks,
    and dictionary words. Strings are sequences of code points. */
module Password {
  import opened Builtins

  // ---------------------------------------------------------------- hasSequentialRun

  function CodePoint(c: char): int { c as int }

  /** How many characters the run of +1 steps ending at `e` spans: what the counter `up`
      holds after position `e`. */
  function UpCount(s: string, e: nat): (n: nat)
    requires e < |s|
    ensures n >= 1
  {
    if e == 0 then 1
    else if CodePoint(s[e]) == CodePoint(s[e - 1]) + 1 then UpCount(s, e - 1) + 1
    else 1
  }

  /** The same for -1 steps: the counter `down`. */
  function DownCount(s: string, e: nat): (n: nat)
    requires e < |s|
    ensures n >= 1
  {
    if e == 0 then 1
    else if CodePoint(s[e]) == CodePoint(s[e - 1]) - 1 then DownCount(s, e - 1) + 1
    else 1
  }

  /** The `n` characters ending at `e` each have the code point after the one before. */
  predicate Ascends(s: string, e: nat, n: nat)
    requires e < |s| && n <= e + 1
  {
    forall j :: e - n + 1 < j <= e ==> CodePoint(s[j]) == CodePoint(s[j - 1]) + 1
  }

  /** The `n` characters ending at `e` each have the code point before the one before. */
  predicate Descends(s: string, e: nat, n: nat)
    requires e < |s| && n <= e + 1
  {
    forall j :: e - n + 1 < j <= e ==> CodePoint(s[j]) == CodePoint(s[j - 1]) - 1
  }

  /** Some position after the first ends `n` characters stepping by +1, or by -1. */
  ghost predicate StepRun(s: string, n: nat) {
    exists e :: 1 <= e < |s| && n <= e + 1 && (Ascends(s, e, n) || Descends(s, e, n))
  }

  /** The counter `up` reaches `n` at `e` exactly when the `n` characters ending there
      ascend. */
  lemma {:induction false} UpCountWindow(s: string, e: nat, n: nat)
    requires e < |s|
    ensures UpCount(s, e) >= n <==> n <= e + 1 && Ascends(s, e, n)
    decreases e
  {
    if n >= 2 && e > 0 {
      UpCountWindow(s, e - 1, n - 1);
      if CodePoint(s[e]) == CodePoint(s[e - 1]) + 1 {
        if n <= e + 1 && Ascends(s, e, n) {
          assert Ascends(s, e - 1, n - 1);
        }
      }
    }
  }

  lemma {:induction false} DownCountWindow(s: string, e: nat, n: nat)
    requires e < |s|
    ensures DownCount(s, e) >= n <==> n <= e + 1 && Descends(s, e, n)
    decreases e
  {
    if n >= 2 && e > 0 {
      DownCountWindow(s, e - 1, n - 1);
      if CodePoint(s[e]) == CodePoint(s[e - 1]) - 1 {
        if n <= e + 1 && Descends(s, e, n) {
          assert Descends(s, e - 1, n - 1);
        }
      }
    }
  }

  /** The keyboard rows, each also searched reversed. */
  const Rows: seq<string> :=
    ["abcdefghijklmnopqrstuvwxyz", "qwertyuiop", "asdfghjkl", "zxcvbnm", "0123456789"]

  /** `[...row].reverse().join('')` */
  function Reverse(s: string): (r: string)
    ensures |r| == |s| && forall i :: 0 <= i < |s| ==> r[i] == s[|s| - 1 - i]
  {
    if s == [] then [] else Reverse(s[1..]) + [s[0]]
  }

  /** The `n` characters of `row` from `k` on occur in `s`. */
  predicate WindowAt(s: string, row: string, k: int, n: nat) {
    0 <= k && k + n <= |row| && IsInfix(row[k..k + n], s)
  }

  /** Some `n`-character window of `row` occurs in `s`. */
  ghost predicate WindowIn(s: string, row: string, n: nat) {
    exists k :: WindowAt(s, row, k, n)
  }

  /** Some `n`-character window of one of `rows`, forwards or backwards, occurs in `s`. */
  ghost predicate RowRun(s: string, rows: seq<string>, n: nat) {
    exists q :: 0 <= q < |rows| && (WindowIn(s, rows[q], n) || WindowIn(s, Reverse(rows[q]), n))
  }

  /** Some `n`-character window of a keyboard row, forwards or backwards, occurs in `s`. */
  ghost predicate KeyboardRun(s: string, n: nat) {
    RowRun(s, Rows, n)
  }

  /** `hasSubstringRun(s, row, runLen)` */
  method HasSubstringRun(s: string, row: string, runLen: nat) returns (r: bool)
    ensures r <==> WindowIn(s, row, runLen)
  {
    var i := 0;
    while i + runLen <= |row|
      invariant 0 <= i
      invariant forall k :: k < i ==> !WindowAt(s, row, k, runLen)
      decreases |row| - i
    {
      if IsInfix(row[i..i + runLen], s) {
        assert WindowAt(s, row, i, runLen);
        return true;
      }
      i := i + 1;
    }
    return false;
  }

  /** `hasSequentialRun(pw, runLen)`: count the +1 and -1 steps, then try the keyboard
      rows on the lower-cased password. */
  method HasSequentialRun(pw: string, runLen: nat) returns (r: bool)
    ensures r <==> StepRun(pw, runLen) || KeyboardRun(LowerStr(pw), runLen)
  {
    r := HasStepRun(pw, runLen);
    if r {
      return;
    }
    r := HasRowRun(LowerStr(pw), Rows, runLen);
  }

  /** The counting loop of `hasSequentialRun`. */
  method HasStepRun(pw: string, runLen: nat) returns (r: bool)
    ensures r <==> StepRun(pw, runLen)
  {
    var up, down := 1, 1;
    var i := 1;
    while i < |pw|
      invariant 1 <= i && (|pw| >= 1 ==> i <= |pw|)
      invariant |pw| >= 1 ==> up == UpCount(pw, i - 1) && down == DownCount(pw, i - 1)
      invariant forall e :: 1 <= e < i && e < |pw| ==> UpCount(pw, e) < runLen && DownCount(pw, e) < runLen
    {
      if CodePoint(pw[i]) == CodePoint(pw[i - 1]) + 1 {
        up, down := up + 1, 1;
      } else if CodePoint(pw[i]) == CodePoint(pw[i - 1]) - 1 {
        down, up := down + 1, 1;
      } else {
        up, down := 1, 1;
      }
      if up >= runLen || down >= runLen {
        UpCountWindow(pw, i, runLen);
        DownCountWindow(pw, i, runLen);
        return true;
      }
      i := i + 1;
    }
    NoStepRun(pw, runLen);
    return false;
  }

  /** The keyboard loop of `hasSequentialRun`: each row forwards, then backwards. */
  method HasRowRun(s: string, rows: seq<string>, runLen: nat) returns (r: bool)
    ensures r <==> RowRun(s, rows, runLen)
  {
    var k := 0;
    while k < |rows|
      invariant 0 <= k <= |rows|
      invariant forall q :: 0 <= q < k ==> !WindowIn(s, rows[q], runLen) && !WindowIn(s, Reverse(rows[q]), runLen)
    {
      var forward := HasSubstringRun(s, rows[k], runLen);
      if forward {
        return true;
      }
      var backward := HasSubstringRun(s, Reverse(rows[k]), runLen);
      if backward {
        return true;
      }
      k := k + 1;
    }
    return false;
  }

  /** When neither counter reaches `n` anywhere, there is no run. */
  lemma NoStepRun(s: string, n: nat)
    requires forall e :: 1 <= e < |s| ==> UpCount(s, e) < n && DownCount(s, e) < n
    ensures !StepRun(s, n)
  {
    forall e | 1 <= e < |s| && n <= e + 1
      ensures !Ascends(s, e, n) && !Descends(s, e, n)
    {
      UpCountWindow(s, e, n);
      DownCountWindow(s, e, n);
    }
  }

  /** A password that contains a run contains it wherever it is put: runs survive any
      surrounding text. */
  lemma StepRunInContext(pre: string, t: string, post: string, n: nat)
    requires StepRun(t, n)
    ensures StepRun(pre + t + post, n)
  {
    var e :| 1 <= e < |t| && n <= e + 1 && (Ascends(t, e, n) || Descends(t, e, n));
    var s := pre + t + post;
    var e' := |pre| + e;
    assert forall j :: 0 <= j < |t| ==> s[|pre| + j] == t[j];
    assert Ascends(t, e, n) ==> Ascends(s, e', n);
    assert Descends(t, e, n) ==> Descends(s, e', n);
  }

  // ---------------------------------------------------------------- hasRepeatedBlock

  /** Three equal characters in a row, ending at `j`. */
  predicate TripleAt(s: string, j: int) {
    2 <= j < |s| && s[j] == s[j - 1] && s[j - 1] == s[j - 2]
  }

  ghost predicate Triple(s: string) {
    exists j :: TripleAt(s, j)
  }

  /** Two equal adjacent blocks of `k` characters, starting at `i`. */
  predicate SameBlocks(s: string, i: int, k: nat) {
    0 <= i && i + 2 * k <= |s| && s[i..i + k] == s[i + k..i + 2 * k]
  }

  /** Two equal adjacent blocks of 2 to 4 characters, and at least `minBlock`. */
  ghost predicate Doubled(s: string, minBlock: int) {
    exists k: nat, i :: 2 <= k <= 4 && minBlock <= k && SameBlocks(s, i, k)
  }

  /** `hasRepeatedBlock(pw, minBlock)`: first three equal characters, then equal blocks. */
  method HasRepeatedBlock(pw: string, minBlock: int) returns (r: bool)
    ensures r <==> Triple(pw) || Doubled(pw, minBlock)
  {
    r := HasTriple(pw);
    if r {
      return;
    }
    r := HasDoubledBlock(pw, minBlock);
  }

  /** The first loop of `hasRepeatedBlock`. */
  method HasTriple(s: string) returns (r: bool)
    ensures r <==> Triple(s)
  {
    var i := 2;
    while i < |s|
      invariant 2 <= i
      invariant forall j :: j < i ==> !TripleAt(s, j)
    {
      if s[i] == s[i - 1] && s[i - 1] == s[i - 2] {
        assert TripleAt(s, i);
        return true;
      }
      i := i + 1;
    }
    return false;
  }

  /** The block loops of `hasRepeatedBlock`: block sizes 2 to 4, each at every start. */
  method HasDoubledBlock(s: string, minBlock: int) returns (r: bool)
    ensures r <==> Doubled(s, minBlock)
  {
    var k := 2;
    while k <= 4
      invariant 2 <= k <= 5
      invariant forall k': nat, j :: 2 <= k' < k && minBlock <= k' ==> !SameBlocks(s, j, k')
    {
      var j := 0;
      while j + 2 * k <= |s|
        invariant 0 <= j
        invariant minBlock <= k ==> forall j' :: j' < j ==> !SameBlocks(s, j', k)
        decreases |s| - j
      {
        if s[j..j + k] == s[j + k..j + 2 * k] && k >= minBlock {
          assert SameBlocks(s, j, k);
          return true;
        }
        j := j + 1;
      }
      k := k + 1;
    }
    return false;
  }

  // ---------------------------------------------------------------- isDictionaryLike

  /** `[a-z0-9]` */
  predicate LowerAlnum(c: char) { IsLower(c) || IsDigit(c) }

  /** `pw.toLowerCase().replace(/[^a-z0-9]/g, '')` */
  function Compact(pw: string): string {
    Filter(LowerStr(pw), LowerAlnum)
  }

  /** `new Set(dictArr.map(s => s.toLowerCase()))` */
  function Words(dict: seq<string>): set<string> {
    set w | w in dict :: LowerStr(w)
  }

  /** The first end `j' >= j` such that `s[i..j']` is a word, scanning ends upwards. */
  function FirstEnd(s: string, d: set<string>, i: nat, j: nat): Option<string>
    requires i + 4 <= j
    decreases |s| + 1 - j
  {
    if j > |s| then None
    else if s[i..j] in d then Some(s[i..j])
    else FirstEnd(s, d, i, j + 1)
  }

  /** The first word of at least four characters in `s` starting at `i` or later, scanning
      starts upwards and, for each start, ends upwards. */
  function FirstStart(s: string, d: set<string>, i: nat): Option<string>
    decreases |s| - i
  {
    if i + 4 > |s| then None
    else match FirstEnd(s, d, i, i + 4)
      case Some(w) => Some(w)
      case None => FirstStart(s, d, i + 1)
  }

  /** What `isDictionaryLike(pw, dictArr)` returns: the whole compacted password if it is
      a word, else its first word of at least four characters, else nothing. */
  function DictHit(pw: string, dict: seq<string>): Option<string> {
    var s := Compact(pw);
    if s == [] then None
    else if s in Words(dict) then Some(s)
    else FirstStart(s, Words(dict), 0)
  }

  /** `isDictionaryLike(pw, dictArr)` */
  method IsDictionaryLike(pw: string, dict: seq<string>) returns (r: Option<string>)
    ensures r == DictHit(pw, dict)
  {
    var d := set w | w in dict :: LowerStr(w);
    var s := Filter(LowerStr(pw), LowerAlnum);
    if s == [] {
      return None;
    }
    if s in d {
      return Some(s);
    }
    var i := 0;
    while i + 4 <= |s|
      invariant FirstStart(s, d, 0) == FirstStart(s, d, i)
      decreases |s| - i
    {
      var j := i + 4;
      while j <= |s|
        invariant i + 4 <= j <= |s| + 1
        invariant FirstEnd(s, d, i, i + 4) == FirstEnd(s, d, i, j)
        decreases |s| + 1 - j
      {
        if s[i..j] in d {
          return Some(s[i..j]);
        }
        j := j + 1;
      }
      i := i + 1;
    }
    return None;
  }

  /** `s[a..b]` is a window of at least four characters that starts at `i` or later. */
  predicate Window(s: string, i: int, a: int, b: int) {
    0 <= i <= a && a + 4 <= b <= |s|
  }

  /** No window of at least four characters, from start `i` on, that comes before `(a, b)`
      in scan order is a word. */
  ghost predicate NoEarlierWord(s: string, d: set<string>, i: nat, a: nat, b: nat) {
    forall a', b' :: Window(s, i, a', b') && (a' < a || (a' == a && b' < b)) ==> s[a'..b'] !in d
  }

  lemma {:induction false} FirstEndSpec(s: string, d: set<string>, i: nat, j: nat)
    requires i + 4 <= j
    ensures var r := FirstEnd(s, d, i, j);
      && (r.None? ==> forall b :: j <= b <= |s| ==> s[i..b] !in d)
      && (r.Some? ==> exists b :: (j <= b <= |s| && r.value == s[i..b] && r.value in d
            && forall b' :: j <= b' < b ==> s[i..b'] !in d))
    decreases |s| + 1 - j
  {
    if j <= |s| && s[i..j] !in d {
      FirstEndSpec(s, d, i, j + 1);
    }
  }

  /** The scan finds a word exactly when there is one, and the word it finds is the first
      in scan order. */
  lemma {:induction false} FirstStartSpec(s: string, d: set<string>, i: nat)
    ensures var r := FirstStart(s, d, i);
      && (r.None? ==> forall a, b :: Window(s, i, a, b) ==> s[a..b] !in d)
      && (r.Some? ==> exists a, b :: (Window(s, i, a, b) && r.value == s[a..b] && r.value in d
            && NoEarlierWord(s, d, i, a, b)))
    decreases |s| - i
  {
    if i + 4 <= |s| {
      FirstEndSpec(s, d, i, i + 4);
      FirstStartSpec(s, d, i + 1);
      var r := FirstStart(s, d, i);
      if FirstEnd(s, d, i, i + 4).Some? {
        var b :| i + 4 <= b <= |s| && r.value == s[i..b] && r.value in d
          && forall b' :: i + 4 <= b' < b ==> s[i..b'] !in d;
        assert NoEarlierWord(s, d, i, i, b);
      } else if r.Some? {
        var a, b :| Window(s, i + 1, a, b) && r.value == s[a..b] && r.value in d
          && NoEarlierWord(s, d, i + 1, a, b);
        assert NoEarlierWord(s, d, i, a, b);
      }
    }
  }

  /** The meaning of `isDictionaryLike`: nothing exactly when the compacted password is
      empty, or is no word and has no word of at least four characters inside; otherwise
      the whole compacted password if it is a word, else the first such word in scan
      order. */
  lemma DictHitSpec(pw: string, dict: seq<string>)
    ensures var s := Compact(pw); var r := DictHit(pw, dict); var d := Words(dict);
      r.None? <==> s == [] || (s !in d && forall a, b :: Window(s, 0, a, b) ==> s[a..b] !in d)
    ensures var r := DictHit(pw, dict); r.Some? ==> r.value in Words(dict)
    ensures Compact(pw) != [] && Compact(pw) in Words(dict) ==> DictHit(pw, dict) == Some(Compact(pw))
    ensures var s := Compact(pw); var r := DictHit(pw, dict);
      r.Some? && r.value != s ==> exists a, b :: (Window(s, 0, a, b) && r.value == s[a..b]
        && NoEarlierWord(s, Words(dict), 0, a, b))
  {
    var s := Compact(pw);
    var d := Words(dict);
    FirstStartSpec(s, d, 0);
    if s != [] && s !in d && FirstStart(s, d, 0).Some? {
      var a, b :| Window(s, 0, a, b) && FirstStart(s, d, 0).value == s[a..b]
        && FirstStart(s, d, 0).value in d && NoEarlierWord(s, d, 0, a, b);
      assert !(forall a', b' :: Window(s, 0, a', b') ==> s[a'..b'] !in d);
    }
  }

  // ---------------------------------------------------------------- validatePassword

  /** The four character classes of `sets`. */
  datatype CharSets = CharSets(lower: bool, upper: bool, digit: bool, symbol: bool)

  /** `[^A-Za-z0-9]` */
  predicate SymbolChar(c: char) { !IsAlnum(c) }

  /** The `sets` record: which classes occur in the password. */
  function SetsOf(pw: string): CharSets {
    CharSets(AnyChar(pw, IsLower), AnyChar(pw, IsUpper), AnyChar(pw, IsDigit), AnyChar(pw, SymbolChar))
  }

  /** The names an object literal inherits from `Object.prototype`. Reading one gives a
      function, or for `__proto__` the prototype object, so `sets[name]` is truthy. */
  const InheritedNames: set<string> := {
    "constructor", "__proto__", "toString", "toLocaleString", "valueOf", "hasOwnProperty",
    "isPrototypeOf", "propertyIsEnumerable", "__defineGetter__", "__defineSetter__",
    "__lookupGetter__", "__lookupSetter__"}

  /** `sets[name]` is truthy: one of the four classes that occurs, or an inherited name.
      Any other name reads `undefined`. */
  predicate Has(sets: CharSets, name: string) {
    (name == "lower" && sets.lower) || (name == "upper" && sets.upper)
    || (name == "digit" && sets.digit) || (name == "symbol" && sets.symbol)
    || name in InheritedNames
  }

  /** The settings after `{ ...DEFAULTS, ...opts }`. */
  datatype Config = Config(
    minLength: int,
    maxLength: int,
    minEntropy: int,
    requireSets: seq<string>,
    dictionaries: seq<string>)

  const DefaultDictionary: seq<string> :=
    ["password", "passw0rd", "123456", "123456789", "qwerty", "letmein",
     "admin", "welcome", "iloveyou", "monkey", "dragon"]

  function Defaults(): Config {
    Config(12, 1024, 60, ["lower", "upper", "digit", "symbol"], DefaultDictionary)
  }

  /** The reasons a password is refused. */
  datatype Reason =
    | NotAString              // 'not a string'
    | ShorterThan(min: int)   // `length < ${minLength}`
    | LongerThan(max: int)    // `length > ${maxLength}`
    | Missing(name: string)   // `missing ${need}`
    | DictionaryLike(word: string)
    | Sequential              // 'sequential characters'
    | Repeated                // 'repeated block'
    | LowEntropy(min: int)    // `entropy < ${minEntropy}b`

  /** The advice given with the reasons. */
  datatype Suggestion =
    | UseLength(min: int)     // `use ≥${minLength} chars`
    | Add(name: string)       // `add ${s}`
    | AvoidWords              // 'avoid common words and keyboard patterns'
    | AvoidPatterns           // 'avoid sequences and repeats'
    | ProvideString           // 'provide a string'

  /** The result record. `entropyBits` is the rounded estimate. */
  datatype PasswordResult = PasswordResult(
    ok: bool,
    score: int,
    entropyBits: int,
    length: int,
    sets: CharSets,
    reasons: seq<Reason>,
    suggestions: seq<Suggestion>)

  /** `fail(reason)` */
  function Fail(reason: Reason): (r: PasswordResult)
    ensures !r.ok && r.score == 0 && r.reasons == [reason] && r.suggestions == [ProvideString]
  {
    PasswordResult(false, 0, 0, 0, CharSets(false, false, false, false), [reason], [ProvideString])
  }

  function IfR(cond: bool, x: Reason): seq<Reason> {
    if cond then [x] else []
  }

  function IfS(cond: bool, x: Suggestion): seq<Suggestion> {
    if cond then [x] else []
  }

  /** `missing <set>` for each required class that is absent, in the order required. */
  function MissingReasons(sets: CharSets, names: seq<string>): seq<Reason>
    decreases |names|
  {
    if names == [] then []
    else MissingReasons(sets, names[..|names| - 1]) + IfR(!Has(sets, names[|names| - 1]), Missing(names[|names| - 1]))
  }

  /** `add <set>` for each of `names` that is absent, in order. */
  function AddSuggestions(sets: CharSets, names: seq<string>): seq<Suggestion>
    decreases |names|
  {
    if names == [] then []
    else AddSuggestions(sets, names[..|names| - 1]) + IfS(!Has(sets, names[|names| - 1]), Add(names[|names| - 1]))
  }

  /** The classes a suggestion may name, in the order they are suggested. */
  const AllSets: seq<string> := ["lower", "upper", "digit", "symbol"]

  /** The score band of an entropy estimate. */
  function Band(entropy: real): int {
    if entropy >= 100.0 then 4
    else if entropy >= 80.0 then 3
    else if entropy >= 60.0 then 2
    else if entropy >= 40.0 then 1
    else 0
  }

  /** `Math.max(0, Math.min(4, band - (reasons.length > 0 ? 1 : 0)))` */
  function Score(entropy: real, refused: bool): int {
    var raw := Band(entropy) - (if refused then 1 else 0);
    if raw < 0 then 0 else if raw > 4 then 4 else raw
  }

  /** `Math.round(x)`: the nearest integer, halves upwards. */
  function Round(x: real): int {
    (x + 0.5).Floor
  }

  /** The reasons for a password of `length` code points that holds the classes `sets`,
      given the outcomes of the three detectors. */
  function ReasonsFor(length: nat, sets: CharSets, cfg: Config, hit: Option<string>, sequential: bool, repeated: bool, entropy: real): seq<Reason> {
    IfR(length < cfg.minLength, ShorterThan(cfg.minLength))
    + IfR(length > cfg.maxLength, LongerThan(cfg.maxLength))
    + MissingReasons(sets, cfg.requireSets)
    + IfR(hit.Some?, DictionaryLike(if hit.Some? then hit.value else []))
    + IfR(sequential, Sequential)
    + IfR(repeated, Repeated)
    + IfR(entropy < cfg.minEntropy as real, LowEntropy(cfg.minEntropy))
  }

  /** The suggestions that go with at least one reason. */
  function SuggestionsFor(length: nat, sets: CharSets, cfg: Config, hit: Option<string>, sequential: bool, repeated: bool): seq<Suggestion> {
    IfS(length < cfg.minLength, UseLength(cfg.minLength))
    + AddSuggestions(sets, AllSets)
    + IfS(hit.Some?, AvoidWords)
    + IfS(sequential || repeated, AvoidPatterns)
  }

  /** The result for a string password, given the outcomes of the three detectors. */
  function Outcome(pw: string, cfg: Config, hit: Option<string>, sequential: bool, repeated: bool, entropy: real): PasswordResult {
    var sets := SetsOf(pw);
    var reasons := ReasonsFor(|pw|, sets, cfg, hit, sequential, repeated, entropy);
    var suggestions := if reasons != [] then SuggestionsFor(|pw|, sets, cfg, hit, sequential, repeated) else [];
    PasswordResult(reasons == [], Score(entropy, reasons != []), Round(entropy), |pw|, sets,
      reasons, suggestions)
  }

  /** What `validatePassword(password, opts)` returns; `None` is a value that is not a
      string, and `entropy` is what `estimateEntropyBits` computes. */
  ghost function PasswordVerdict(password: Option<string>, cfg: Config, entropy: real): PasswordResult {
    match password
    case None => Fail(NotAString)
    case Some(pw) =>
      Outcome(pw, cfg, DictHit(pw, cfg.dictionaries), StepRun(pw, 4) || KeyboardRun(LowerStr(pw), 4),
        Triple(pw) || Doubled(pw, 3), entropy)
  }

  /** `validatePassword(password, opts)`. */
  method ValidatePassword(password: Option<string>, cfg: Config, entropy: real) returns (r: PasswordResult)
    ensures r == PasswordVerdict(password, cfg, entropy)
  {
    if password.None? {
      return Fail(NotAString);
    }
    var pw := password.value;
    var sets := SetsOf(pw);
    var length := |pw|;
    var hit := IsDictionaryLike(pw, cfg.dictionaries);
    var sequential := HasSequentialRun(pw, 4);
    var repeated := HasRepeatedBlock(pw, 3);
    var reasons := CollectReasons(length, sets, cfg, hit, sequential, repeated, entropy);
    var suggestions: seq<Suggestion> := [];
    if |reasons| > 0 {
      suggestions := CollectSuggestions(length, sets, cfg, hit, sequential, repeated);
    }
    r := PasswordResult(|reasons| == 0, Score(entropy, |reasons| > 0), Round(entropy), length, sets,
      reasons, suggestions);
  }

  /** The pushes onto `reasons` in `validatePassword`. */
  method CollectReasons(length: nat, sets: CharSets, cfg: Config, hit: Option<string>, sequential: bool, repeated: bool, entropy: real)
    returns (reasons: seq<Reason>)
    ensures reasons == ReasonsFor(length, sets, cfg, hit, sequential, repeated, entropy)
  {
    reasons := [];
    if length < cfg.minLength {
      reasons := reasons + [ShorterThan(cfg.minLength)];
    }
    if length > cfg.maxLength {
      reasons := reasons + [LongerThan(cfg.maxLength)];
    }
    assert reasons == IfR(length < cfg.minLength, ShorterThan(cfg.minLength))
      + IfR(length > cfg.maxLength, LongerThan(cfg.maxLength));
    reasons := PushMissing(reasons, sets, cfg.requireSets);
    ghost var checked := reasons;
    if hit.Some? {
      reasons := reasons + [DictionaryLike(hit.value)];
    }
    assert reasons == checked + IfR(hit.Some?, DictionaryLike(if hit.Some? then hit.value else []));
    checked := reasons;
    if sequential {
      reasons := reasons + [Sequential];
    }
    assert reasons == checked + IfR(sequential, Sequential);
    checked := reasons;
    if repeated {
      reasons := reasons + [Repeated];
    }
    assert reasons == checked + IfR(repeated, Repeated);
    checked := reasons;
    if entropy < cfg.minEntropy as real {
      reasons := reasons + [LowEntropy(cfg.minEntropy)];
    }
    assert reasons == checked + IfR(entropy < cfg.minEntropy as real, LowEntropy(cfg.minEntropy));
  }

  /** The `for (const need of cfg.requireSets)` loop. */
  method PushMissing(front: seq<Reason>, sets: CharSets, names: seq<string>) returns (reasons: seq<Reason>)
    ensures reasons == front + MissingReasons(sets, names)
  {
    reasons := front;
    for k := 0 to |names|
      invariant reasons == front + MissingReasons(sets, names[..k])
    {
      var need := names[k];
      assert names[..k + 1][..k] == names[..k];
      if !Has(sets, need) {
        reasons := reasons + [Missing(need)];
      }
    }
    assert names[..|names|] == names;
  }

  /** The pushes onto `suggestions` in `validatePassword`, made when there is a reason. */
  method CollectSuggestions(length: nat, sets: CharSets, cfg: Config, hit: Option<string>, sequential: bool, repeated: bool)
    returns (suggestions: seq<Suggestion>)
    ensures suggestions == SuggestionsFor(length, sets, cfg, hit, sequential, repeated)
  {
    suggestions := [];
    if length < cfg.minLength {
      suggestions := suggestions + [UseLength(cfg.minLength)];
    }
    suggestions := PushAdds(suggestions, sets, AllSets);
    if hit.Some? {
      suggestions := suggestions + [AvoidWords];
    }
    if sequential || repeated {
      suggestions := suggestions + [AvoidPatterns];
    }
  }

  /** The `for (const s of ['lower','upper','digit','symbol'])` loop. */
  method PushAdds(front: seq<Suggestion>, sets: CharSets, names: seq<string>) returns (suggestions: seq<Suggestion>)
    ensures suggestions == front + AddSuggestions(sets, names)
  {
    suggestions := front;
    for q := 0 to |names|
      invariant suggestions == front + AddSuggestions(sets, names[..q])
    {
      var name := names[q];
      assert names[..q + 1][..q] == names[..q];
      if !Has(sets, name) {
        suggestions := suggestions + [Add(name)];
      }
    }
    assert names[..|names|] == names;
  }

  // ---------------------------------------------------------------- properties

  /** A value that is not a string gets the fixed failure record. */
  lemma NotAStringFails(cfg: Config, entropy: real)
    ensures PasswordVerdict(None, cfg, entropy)
      == PasswordResult(false, 0, 0, 0, CharSets(false, false, false, false), [NotAString], [ProvideString])
  {
  }

  /** Missing classes: a reason for each required class that is absent, and none other. */
  lemma {:induction false} MissingReasonsSpec(sets: CharSets, names: seq<string>)
    ensures MissingReasons(sets, names) == [] <==> forall i :: 0 <= i < |names| ==> Has(sets, names[i])
    ensures forall x :: x in MissingReasons(sets, names) ==>
      x.Missing? && x.name in names && !Has(sets, x.name)
    decreases |names|
  {
    if names != [] {
      var init := names[..|names| - 1];
      MissingReasonsSpec(sets, init);
      assert forall i :: 0 <= i < |init| ==> init[i] == names[i];
      assert forall n :: n in init ==> n in names;
    }
  }

  /** Class suggestions name only classes that are absent. */
  lemma {:induction false} AddSuggestionsSpec(sets: CharSets, names: seq<string>)
    ensures forall x :: x in AddSuggestions(sets, names) ==>
      x.Add? && x.name in names && !Has(sets, x.name)
    decreases |names|
  {
    if names != [] {
      var init := names[..|names| - 1];
      AddSuggestionsSpec(sets, init);
      assert forall n :: n in init ==> n in names;
    }
  }

  /** A password passes exactly when it raises no reason. The score is the entropy band,
      one band less when the password is refused and never below 0; a password that passes
      gets no suggestion. */
  lemma OutcomeShape(pw: string, cfg: Config, hit: Option<string>, sequential: bool, repeated: bool, entropy: real)
    ensures var r := Outcome(pw, cfg, hit, sequential, repeated, entropy);
      && (r.ok <==>
        && cfg.minLength <= |pw| <= cfg.maxLength
        && (forall i :: 0 <= i < |cfg.requireSets| ==> Has(SetsOf(pw), cfg.requireSets[i]))
        && hit.None? && !sequential && !repeated
        && entropy >= cfg.minEntropy as real)
      && (r.ok <==> r.reasons == [])
      && (r.ok ==> r.suggestions == [] && r.score == Band(entropy))
      && (!r.ok ==> r.score == if Band(entropy) == 0 then 0 else Band(entropy) - 1)
      && 0 <= r.score <= 4
      && r.length == |pw|
  {
    MissingReasonsSpec(SetsOf(pw), cfg.requireSets);
  }

  /** Every suggestion answers a reason: `use ≥n chars` only for a short password, `add <set>`
      only for an absent class, and the avoid advice only when a detector fired. */
  lemma SuggestionsAnswerReasons(pw: string, cfg: Config, hit: Option<string>, sequential: bool, repeated: bool, entropy: real)
    ensures var r := Outcome(pw, cfg, hit, sequential, repeated, entropy);
      forall x :: x in r.suggestions ==>
        && r.reasons != []
        && (x.UseLength? ==> ShorterThan(cfg.minLength) in r.reasons)
        && (x.Add? ==> x.name in AllSets && !Has(SetsOf(pw), x.name))
        && (x.AvoidWords? ==> exists w :: DictionaryLike(w) in r.reasons)
        && (x.AvoidPatterns? ==> Sequential in r.reasons || Repeated in r.reasons)
        && !x.ProvideString?
  {
    var r := Outcome(pw, cfg, hit, sequential, repeated, entropy);
    var sets := SetsOf(pw);
    var reasons := ReasonsFor(|pw|, sets, cfg, hit, sequential, repeated, entropy);
    var suggestions := SuggestionsFor(|pw|, sets, cfg, hit, sequential, repeated);
    assert r.reasons == reasons;
    assert r.suggestions == if reasons != [] then suggestions else [];
    ReasonsPresent(|pw|, sets, cfg, hit, sequential, repeated, entropy);
    forall x | x in r.suggestions
      ensures && r.reasons != []
        && (x.UseLength? ==> ShorterThan(cfg.minLength) in r.reasons)
        && (x.Add? ==> x.name in AllSets && !Has(sets, x.name))
        && (x.AvoidWords? ==> exists w :: DictionaryLike(w) in r.reasons)
        && (x.AvoidPatterns? ==> Sequential in r.reasons || Repeated in r.reasons)
        && !x.ProvideString?
    {
      SuggestionCause(x, |pw|, sets, cfg, hit, sequential, repeated);
      if x.AvoidWords? {
        assert DictionaryLike(hit.value) in r.reasons;
      }
    }
  }

  /** What each suggestion says about the password and the detectors. */
  lemma SuggestionCause(x: Suggestion, length: nat, sets: CharSets, cfg: Config, hit: Option<string>, sequential: bool, repeated: bool)
    requires x in SuggestionsFor(length, sets, cfg, hit, sequential, repeated)
    ensures x.UseLength? ==> length < cfg.minLength && x.min == cfg.minLength
    ensures x.Add? ==> x.name in AllSets && !Has(sets, x.name)
    ensures x.AvoidWords? ==> hit.Some?
    ensures x.AvoidPatterns? ==> sequential || repeated
    ensures !x.ProvideString?
  {
    AddSuggestionsSpec(sets, AllSets);
  }

  /** The reasons raised by a short password and by each detector that fired. */
  lemma ReasonsPresent(length: nat, sets: CharSets, cfg: Config, hit: Option<string>, sequential: bool, repeated: bool, entropy: real)
    ensures var reasons := ReasonsFor(length, sets, cfg, hit, sequential, repeated, entropy);
      && (length < cfg.minLength ==> ShorterThan(cfg.minLength) in reasons)
      && (hit.Some? ==> DictionaryLike(hit.value) in reasons)
      && (sequential ==> Sequential in reasons)
      && (repeated ==> Repeated in reasons)
  {
  }

  /** A password passes exactly when its length is within the bounds, every required class
      occurs, it holds no dictionary word, no run of four and no repeated block, and its
      entropy reaches the minimum. */
  lemma PasswordAccepted(pw: string, cfg: Config, entropy: real)
    ensures var r := PasswordVerdict(Some(pw), cfg, entropy);
      r.ok <==>
        && cfg.minLength <= |pw| <= cfg.maxLength
        && (forall i :: 0 <= i < |cfg.requireSets| ==> Has(SetsOf(pw), cfg.requireSets[i]))
        && DictHit(pw, cfg.dictionaries).None?
        && !StepRun(pw, 4) && !KeyboardRun(LowerStr(pw), 4)
        && !Triple(pw) && !Doubled(pw, 3)
        && entropy >= cfg.minEntropy as real
  {
    OutcomeShape(pw, cfg, DictHit(pw, cfg.dictionaries), StepRun(pw, 4) || KeyboardRun(LowerStr(pw), 4),
      Triple(pw) || Doubled(pw, 3), entropy);
  }

  /** A required name that `sets` inherits never raises `missing`; a name that is neither a
      class nor inherited always does. */
  lemma InheritedNamesNeverMissing(sets: CharSets, names: seq<string>)
    ensures forall x :: x in MissingReasons(sets, names) ==> x.Missing? && x.name !in InheritedNames
    ensures MissingReasons(sets, ["toString", "colour"]) == [Missing("colour")]
  {
    MissingReasonsSpec(sets, names);
    assert ["toString", "colour"][..1] == ["toString"];
  }

  /** Under the default settings a password that passes has 12 to 1024 code points, holds a
      lower-case letter, an upper-case letter, a digit and a symbol, contains no word of the
      default dictionary, and has an entropy of at least 60 bits. */
  lemma DefaultsDemand(pw: string, entropy: real)
    ensures PasswordVerdict(Some(pw), Defaults(), entropy).ok ==>
      && 12 <= |pw| <= 1024
      && Has(SetsOf(pw), "lower") && Has(SetsOf(pw), "upper")
      && Has(SetsOf(pw), "digit") && Has(SetsOf(pw), "symbol")
      && DictHit(pw, DefaultDictionary).None?
      && entropy >= 60.0
  {
    PasswordAccepted(pw, Defaults(), entropy);
    var cfg := Defaults();
    if PasswordVerdict(Some(pw), cfg, entropy).ok {
      assert cfg.requireSets[0] == "lower" && cfg.requireSets[1] == "upper";
      assert cfg.requireSets[2] == "digit" && cfg.requireSets[3] == "symbol";
    }
  }
}
