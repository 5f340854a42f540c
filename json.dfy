/** is-json-safe/json.js: limits on a parsed JSON value. The walk `analyze` measures the
    nesting depth and the total number of object keys with an explicit stack, stops at the
    first limit it breaks, and flags blocked keys. */
module JsonSafe {
  import opened Builtins

  // ---------------------------------------------------------------- values

  /** A value as `JSON.parse` produces it; object members are listed in the order
      `Object.keys` gives them. */
  datatype Json =
    | Null
    | Bool(b: bool)
    | Num(n: real)
    | Str(s: string)
    | Arr(items: seq<Json>)
    | Obj(members: seq<Member>)

  datatype Member = Member(key: string, value: Json)

  function Max(a: nat, b: nat): nat {
    if a > b then a else b
  }

  /** The member values, in order. */
  function Values(ms: seq<Member>): (vs: seq<Json>)
    ensures |vs| == |ms|
  {
    if ms == [] then [] else Values(ms[..|ms| - 1]) + [ms[|ms| - 1].value]
  }

  /** `Object.keys(v)` */
  function Keys(ms: seq<Member>): (ks: seq<string>)
    ensures |ks| == |ms|
  {
    if ms == [] then [] else Keys(ms[..|ms| - 1]) + [ms[|ms| - 1].key]
  }

  /** The values nested directly inside `v`. */
  function Kids(v: Json): seq<Json> {
    match v
    case Arr(items) => items
    case Obj(ms) => Values(ms)
    case _ => []
  }

  /** The decimal indices `"0"` to `"n-1"`. */
  function Indices(n: nat): (ls: seq<string>)
    ensures |ls| == n
  {
    if n == 0 then [] else Indices(n - 1) + [NatToString(n - 1)]
  }

  /** The key under which each kid of `v` is reached: its index in an array, its key in an
      object. */
  function Labels(v: Json): (ls: seq<string>)
    ensures |ls| == |Kids(v)|
  {
    match v
    case Arr(items) => Indices(|items|)
    case Obj(ms) => Keys(ms)
    case _ => []
  }

  /** The number of values in `v`, itself included. */
  function Size(v: Json): (n: nat)
    ensures n >= 1
  {
    match v
    case Arr(items) => 1 + ItemsSize(items)
    case Obj(ms) => 1 + MembersSize(ms)
    case _ => 1
  }

  function ItemsSize(vs: seq<Json>): nat {
    if vs == [] then 0 else ItemsSize(vs[..|vs| - 1]) + Size(vs[|vs| - 1])
  }

  function MembersSize(ms: seq<Member>): nat {
    if ms == [] then 0
    else
      assert ms[|ms| - 1] in ms;
      MembersSize(ms[..|ms| - 1]) + Size(ms[|ms| - 1].value)
  }

  lemma {:induction false} MembersSizeValues(ms: seq<Member>)
    ensures MembersSize(ms) == ItemsSize(Values(ms))
    decreases |ms|
  {
    if ms != [] {
      MembersSizeValues(ms[..|ms| - 1]);
      var vs := Values(ms);
      assert vs[..|vs| - 1] == Values(ms[..|ms| - 1]);
    }
  }

  lemma SizeKids(v: Json)
    ensures Size(v) == 1 + ItemsSize(Kids(v))
  {
    if v.Obj? {
      MembersSizeValues(v.members);
    }
  }

  // ---------------------------------------------------------------- what the walk measures

  /** How deep the values nest below `v`: 0 for a value with nothing inside. */
  function Height(v: Json): nat
    decreases Size(v), 0
  {
    SizeKids(v);
    if Kids(v) == [] then 0 else 1 + ForestHeight(Kids(v))
  }

  function ForestHeight(vs: seq<Json>): nat
    decreases ItemsSize(vs), 1
  {
    if vs == [] then 0 else Max(ForestHeight(vs[..|vs| - 1]), Height(vs[|vs| - 1]))
  }

  /** The number of object keys in `v`, nested objects included. */
  function KeyTotal(v: Json): nat
    decreases Size(v), 0
  {
    SizeKids(v);
    (if v.Obj? then |v.members| else 0) + ForestKeys(Kids(v))
  }

  function ForestKeys(vs: seq<Json>): nat
    decreases ItemsSize(vs), 1
  {
    if vs == [] then 0 else ForestKeys(vs[..|vs| - 1]) + KeyTotal(vs[|vs| - 1])
  }

  /** Some string in `v` is longer than `limit`. */
  predicate LongIn(v: Json, limit: int)
    decreases Size(v), 0
  {
    SizeKids(v);
    (v.Str? && |v.s| > limit) || ForestLong(Kids(v), limit)
  }

  predicate ForestLong(vs: seq<Json>, limit: int)
    decreases ItemsSize(vs), 1
  {
    vs != [] && (ForestLong(vs[..|vs| - 1], limit) || LongIn(vs[|vs| - 1], limit))
  }

  /** `blocked_key:<k>` for each of `ks` that is blocked, in order. */
  function MarkBlocked(ks: seq<string>, block: seq<string>): seq<JsonIssue> {
    if ks == [] then []
    else
      var k := ks[|ks| - 1];
      MarkBlocked(ks[..|ks| - 1], block) + (if k in block then [BlockedKey(k)] else [])
  }

  /** The blocked-key issues of the walk over `v`: the object's own keys in order, then the
      kids from the last to the first, as the stack pops them. */
  function TreeMarks(v: Json, block: seq<string>): seq<JsonIssue>
    decreases Size(v), 0
  {
    SizeKids(v);
    (if v.Obj? then MarkBlocked(Keys(v.members), block) else []) + ForestMarks(Kids(v), block)
  }

  function ForestMarks(vs: seq<Json>, block: seq<string>): seq<JsonIssue>
    decreases ItemsSize(vs), 1
  {
    if vs == [] then [] else TreeMarks(vs[|vs| - 1], block) + ForestMarks(vs[..|vs| - 1], block)
  }

  /** The keys `JSON.parse` hands its reviver below `v`: each kid's own keys, then the
      kid's label, from the first kid to the last. */
  function Reviver(v: Json): seq<string>
    decreases Size(v), 0
  {
    SizeKids(v);
    ReviverForest(Kids(v), Labels(v))
  }

  function ReviverForest(vs: seq<Json>, ls: seq<string>): seq<string>
    requires |ls| == |vs|
    decreases ItemsSize(vs), 1
  {
    if vs == [] then []
    else ReviverForest(vs[..|vs| - 1], ls[..|ls| - 1]) + Reviver(vs[|vs| - 1]) + [ls[|ls| - 1]]
  }

  /** Every key the reviver sees, the root's empty key last. */
  function ReviverCalls(v: Json): seq<string> {
    Reviver(v) + [""]
  }

  // ---------------------------------------------------------------- analyze

  /** The settings after `{ ...DEFAULTS, ...opts }`; an absent `blockKeys` is empty. */
  datatype JsonOptions = JsonOptions(
    maxBytes: int,
    maxDepth: int,
    maxKeys: int,
    maxStringLength: int,
    blockKeys: seq<string>,
    returnValue: bool)

  function Defaults(): JsonOptions {
    JsonOptions(1000000, 32, 50000, 100000, ["__proto__", "constructor", "prototype"], true)
  }

  datatype JsonIssue =
    | Empty              // 'empty'
    | TooLarge           // 'too_large'
    | ParseError         // 'parse_error'
    | BlockedKey(key: string)
    | TooDeep            // 'too_deep'
    | StringTooLong      // 'string_too_long'
    | TooManyKeys        // 'too_many_keys'

  /** A stack entry `{ v, d }`. */
  datatype Frame = Frame(v: Json, d: nat)

  /** How the walk ended: it ran out of values, or it broke on a limit. */
  datatype Stop = Finished | DepthLimit | StringLimit | KeyLimit

  function StopIssue(s: Stop): seq<JsonIssue> {
    match s
    case Finished => []
    case DepthLimit => [TooDeep]
    case StringLimit => [StringTooLong]
    case KeyLimit => [TooManyKeys]
  }

  /** What `analyze` leaves: `maxDepth`, `keyCount`, the issues array, and how it ended. */
  datatype Walked = Walked(depth: nat, keys: nat, issues: seq<JsonIssue>, stop: Stop)

  /** The entries pushed for the kids `vs` at depth `d`, in order. */
  function Frames(vs: seq<Json>, d: nat): (fs: seq<Frame>)
    ensures |fs| == |vs|
  {
    if vs == [] then [] else Frames(vs[..|vs| - 1], d) + [Frame(vs[|vs| - 1], d)]
  }

  /** The number of values the walk still has to pop. */
  function StackSize(st: seq<Frame>): nat {
    if st == [] then 0 else StackSize(st[..|st| - 1]) + Size(st[|st| - 1].v)
  }

  lemma {:induction false} StackSizeConcat(a: seq<Frame>, b: seq<Frame>)
    ensures StackSize(a + b) == StackSize(a) + StackSize(b)
    decreases |b|
  {
    if b == [] {
      assert a + b == a;
    } else {
      assert (a + b)[..|a + b| - 1] == a + b[..|b| - 1];
      assert (a + b)[|a + b| - 1] == b[|b| - 1];
      StackSizeConcat(a, b[..|b| - 1]);
    }
  }

  lemma {:induction false} FramesSize(vs: seq<Json>, d: nat)
    ensures StackSize(Frames(vs, d)) == ItemsSize(vs)
    decreases |vs|
  {
    if vs != [] {
      FramesSize(vs[..|vs| - 1], d);
    }
  }

  /** Popping `f` and pushing its kids leaves less to pop. */
  lemma PopShrinks(rest: seq<Frame>, f: Frame)
    ensures StackSize(rest + Frames(Kids(f.v), f.d + 1)) < StackSize(rest + [f])
  {
    StackSizeConcat(rest, Frames(Kids(f.v), f.d + 1));
    StackSizeConcat(rest, [f]);
    FramesSize(Kids(f.v), f.d + 1);
    SizeKids(f.v);
  }

  /** One turn of the loop: it goes on with a new stack and counters, or halts. */
  datatype Turn =
    | Go(st: seq<Frame>, depth: nat, keys: nat, issues: seq<JsonIssue>)
    | Halt(w: Walked)

  /** One turn of the loop of `analyze` on a non-empty stack: pop the top entry, record its
      depth, break on a limit, or push its kids. */
  function Step(st: seq<Frame>, depth: nat, keys: nat, issues: seq<JsonIssue>, o: JsonOptions): (t: Turn)
    requires st != []
    ensures t.Go? ==> StackSize(t.st) < StackSize(st)
  {
    var f := st[|st| - 1];
    var rest := st[..|st| - 1];
    var depth' := Max(depth, f.d);
    assert st == rest + [f];
    PopShrinks(rest, f);
    if f.d > o.maxDepth then Halt(Walked(depth', keys, issues + [TooDeep], DepthLimit))
    else
      match f.v
      case Str(s) =>
        if |s| > o.maxStringLength then Halt(Walked(depth', keys, issues + [StringTooLong], StringLimit))
        else Go(rest, depth', keys, issues)
      case Arr(items) =>
        Go(rest + Frames(items, f.d + 1), depth', keys, issues)
      case Obj(ms) =>
        if keys + |ms| > o.maxKeys then Halt(Walked(depth', keys + |ms|, issues + [TooManyKeys], KeyLimit))
        else Go(rest + Frames(Values(ms), f.d + 1), depth', keys + |ms|, issues + MarkBlocked(Keys(ms), o.blockKeys))
      case _ =>
        Go(rest, depth', keys, issues)
  }

  /** The walk of `analyze` from the stack `st`, with the counters and the issues so far. */
  function Walk(st: seq<Frame>, depth: nat, keys: nat, issues: seq<JsonIssue>, o: JsonOptions): Walked
    decreases StackSize(st)
  {
    if st == [] then Walked(depth, keys, issues, Finished)
    else
      match Step(st, depth, keys, issues, o)
      case Halt(w) => w
      case Go(st', depth', keys', issues') => Walk(st', depth', keys', issues', o)
  }

  /** `analyze(root, o, issues)`: pop entries until the stack is empty or a limit breaks. */
  method Analyze(root: Json, o: JsonOptions, issues0: seq<JsonIssue>) returns (w: Walked)
    ensures w == Walk([Frame(root, 0)], 0, 0, issues0, o)
  {
    var maxDepth: nat := 0;
    var keyCount: nat := 0;
    var issues := issues0;
    var stack := [Frame(root, 0)];
    while stack != []
      invariant Walk(stack, maxDepth, keyCount, issues, o) == Walk([Frame(root, 0)], 0, 0, issues0, o)
      decreases StackSize(stack)
    {
      var stop;
      stack, maxDepth, keyCount, issues, stop := Pop(stack, maxDepth, keyCount, issues, o);
      if stop != Finished {
        return Walked(maxDepth, keyCount, issues, stop);
      }
    }
    return Walked(maxDepth, keyCount, issues, Finished);
  }

  /** The body of the loop of `analyze`. */
  method Pop(stack0: seq<Frame>, maxDepth0: nat, keyCount0: nat, issues0: seq<JsonIssue>, o: JsonOptions)
    returns (stack: seq<Frame>, maxDepth: nat, keyCount: nat, issues: seq<JsonIssue>, stop: Stop)
    requires stack0 != []
    ensures Step(stack0, maxDepth0, keyCount0, issues0, o)
      == if stop == Finished then Go(stack, maxDepth, keyCount, issues)
         else Halt(Walked(maxDepth, keyCount, issues, stop))
  {
    var f := stack0[|stack0| - 1];
    stack := stack0[..|stack0| - 1];
    maxDepth, keyCount, issues, stop := maxDepth0, keyCount0, issues0, Finished;
    if f.d > maxDepth {
      maxDepth := f.d;
    }
    if f.d > o.maxDepth {
      issues := issues + [TooDeep];
      stop := DepthLimit;
      return;
    }
    match f.v {
      case Str(s) =>
        if |s| > o.maxStringLength {
          issues := issues + [StringTooLong];
          stop := StringLimit;
        }
      case Arr(items) =>
        stack := PushItems(stack, items, f.d + 1);
      case Obj(ms) =>
        keyCount := keyCount + |ms|;
        if keyCount > o.maxKeys {
          issues := issues + [TooManyKeys];
          stop := KeyLimit;
          return;
        }
        stack, issues := PushMembers(stack, issues, ms, f.d + 1, o.blockKeys);
      case Null =>
      case Bool(_) =>
      case Num(_) =>
    }
  }

  /** `for (let i = 0; i < v.length; i++) stack.push({ v: v[i], d: d + 1 })` */
  method PushItems(stack0: seq<Frame>, items: seq<Json>, d: nat) returns (stack: seq<Frame>)
    ensures stack == stack0 + Frames(items, d)
  {
    stack := stack0;
    for i := 0 to |items|
      invariant stack == stack0 + Frames(items[..i], d)
    {
      assert items[..i + 1][..i] == items[..i];
      stack := stack + [Frame(items[i], d)];
    }
    assert items[..|items|] == items;
  }

  /** `for (const k of keys)`: flag a blocked key, push the member's value. */
  method PushMembers(stack0: seq<Frame>, issues0: seq<JsonIssue>, ms: seq<Member>, d: nat, block: seq<string>)
    returns (stack: seq<Frame>, issues: seq<JsonIssue>)
    ensures stack == stack0 + Frames(Values(ms), d)
    ensures issues == issues0 + MarkBlocked(Keys(ms), block)
  {
    stack, issues := stack0, issues0;
    for i := 0 to |ms|
      invariant stack == stack0 + Frames(Values(ms[..i]), d)
      invariant issues == issues0 + MarkBlocked(Keys(ms[..i]), block)
    {
      MembersStep(ms, i, d, block);
      if ms[i].key in block {
        issues := issues + [BlockedKey(ms[i].key)];
      }
      stack := stack + [Frame(ms[i].value, d)];
    }
    assert ms[..|ms|] == ms;
  }

  /** One more member adds its value's entry and, when blocked, its key's issue. */
  lemma MembersStep(ms: seq<Member>, i: nat, d: nat, block: seq<string>)
    requires i < |ms|
    ensures Frames(Values(ms[..i + 1]), d) == Frames(Values(ms[..i]), d) + [Frame(ms[i].value, d)]
    ensures MarkBlocked(Keys(ms[..i + 1]), block)
      == MarkBlocked(Keys(ms[..i]), block) + (if ms[i].key in block then [BlockedKey(ms[i].key)] else [])
  {
    assert ms[..i + 1][..i] == ms[..i];
    assert Values(ms[..i + 1]) == Values(ms[..i]) + [ms[i].value];
    assert Keys(ms[..i + 1]) == Keys(ms[..i]) + [ms[i].key];
  }

  // ---------------------------------------------------------------- isJsonSafe

  /** The result record; `value` is present only when it is returned. */
  datatype JsonResult = JsonResult(
    ok: bool,
    issues: seq<JsonIssue>,
    value: Option<Json>,
    bytes: nat,
    depth: nat,
    keys: nat)

  /** What `isJsonSafe(raw, opts)` returns when `JSON.parse(raw)` gives `parsed`, `None`
      standing for a parse that throws. */
  function JsonVerdict(raw: string, parsed: Option<Json>, o: JsonOptions): JsonResult {
    if Trim(raw) == [] then JsonResult(false, [Empty], None, |raw|, 0, 0)
    else
      var front := if |raw| > o.maxBytes then [TooLarge] else [];
      match parsed
      case None => JsonResult(false, front + [ParseError], None, |raw|, 0, 0)
      case Some(v) =>
        var w := Walk([Frame(v, 0)], 0, 0, front + MarkBlocked(ReviverCalls(v), o.blockKeys), o);
        var ok := w.issues == [];
        JsonResult(ok, Uniq(w.issues), if ok && o.returnValue then Some(v) else None, |raw|, w.depth, w.keys)
  }

  /** `isJsonSafe(raw, opts)`, with the parse given as `parsed`. */
  method IsJsonSafe(raw: string, parsed: Option<Json>, o: JsonOptions) returns (r: JsonResult)
    ensures r == JsonVerdict(raw, parsed, o)
  {
    var bytes := |raw|;
    if Trim(raw) == [] {
      return JsonResult(false, [Empty], None, bytes, 0, 0);
    }
    var issues: seq<JsonIssue> := [];
    if bytes > o.maxBytes {
      issues := issues + [TooLarge];
    }
    assert issues == if bytes > o.maxBytes then [TooLarge] else [];
    if parsed.None? {
      issues := issues + [ParseError];
      return JsonResult(false, issues, None, bytes, 0, 0);
    }
    var value := parsed.value;
    issues := MarkReviverKeys(issues, ReviverCalls(value), o.blockKeys);
    var w := Analyze(value, o, issues);
    var ok := |w.issues| == 0;
    assert ok <==> w.issues == [];
    r := JsonResult(ok, Uniq(w.issues), if ok && o.returnValue then Some(value) else None, bytes, w.depth, w.keys);
  }

  /** What the reviver does for each key `JSON.parse` hands it: flag a blocked key. */
  method MarkReviverKeys(issues0: seq<JsonIssue>, calls: seq<string>, block: seq<string>) returns (issues: seq<JsonIssue>)
    ensures issues == issues0 + MarkBlocked(calls, block)
  {
    issues := issues0;
    for i := 0 to |calls|
      invariant issues == issues0 + MarkBlocked(calls[..i], block)
    {
      assert calls[..i + 1][..i] == calls[..i];
      if calls[i] in block {
        issues := issues + [BlockedKey(calls[i])];
      }
    }
    assert calls[..|calls|] == calls;
  }

  // ---------------------------------------------------------------- the stack, summed up

  /** Every value left on the stack lies within the depth limit and holds no long string. */
  predicate StackFits(st: seq<Frame>, o: JsonOptions) {
    st == [] ||
      (var f := st[|st| - 1];
       f.d + Height(f.v) <= o.maxDepth && !LongIn(f.v, o.maxStringLength) && StackFits(st[..|st| - 1], o))
  }

  /** The object keys left on the stack. */
  function StackKeys(st: seq<Frame>): nat {
    if st == [] then 0 else StackKeys(st[..|st| - 1]) + KeyTotal(st[|st| - 1].v)
  }

  /** The greatest depth of a value left on the stack. */
  function StackReach(st: seq<Frame>): nat {
    if st == [] then 0 else Max(StackReach(st[..|st| - 1]), st[|st| - 1].d + Height(st[|st| - 1].v))
  }

  /** The blocked-key issues still to come, the top of the stack first. */
  function StackMarks(st: seq<Frame>, block: seq<string>): seq<JsonIssue> {
    if st == [] then [] else TreeMarks(st[|st| - 1].v, block) + StackMarks(st[..|st| - 1], block)
  }

  lemma {:induction false} StackConcat(a: seq<Frame>, b: seq<Frame>, o: JsonOptions)
    ensures StackFits(a + b, o) <==> StackFits(a, o) && StackFits(b, o)
    ensures StackKeys(a + b) == StackKeys(a) + StackKeys(b)
    ensures StackReach(a + b) == Max(StackReach(a), StackReach(b))
    ensures StackMarks(a + b, o.blockKeys) == StackMarks(b, o.blockKeys) + StackMarks(a, o.blockKeys)
    decreases |b|
  {
    if b == [] {
      assert a + b == a;
    } else {
      var init := b[..|b| - 1];
      var top := b[|b| - 1];
      assert (a + b)[..|a + b| - 1] == a + init;
      assert (a + b)[|a + b| - 1] == top;
      StackConcat(a, init, o);
      ConcatAssoc(TreeMarks(top.v, o.blockKeys), StackMarks(init, o.blockKeys), StackMarks(a, o.blockKeys));
    }
  }

  /** The kids pushed at depth `d` sum up to the kids' forest. */
  lemma {:induction false} FramesSum(vs: seq<Json>, d: nat, o: JsonOptions)
    ensures StackFits(Frames(vs, d), o) <==>
      (vs == [] || d + ForestHeight(vs) <= o.maxDepth) && !ForestLong(vs, o.maxStringLength)
    ensures StackKeys(Frames(vs, d)) == ForestKeys(vs)
    ensures StackReach(Frames(vs, d)) == if vs == [] then 0 else d + ForestHeight(vs)
    ensures StackMarks(Frames(vs, d), o.blockKeys) == ForestMarks(vs, o.blockKeys)
    decreases |vs|
  {
    if vs != [] {
      FramesSum(vs[..|vs| - 1], d, o);
    }
  }

  /** The walk from any stack: it finishes exactly when every value on the stack fits and
      the keys stay within the limit, and then it reports the greatest depth, the total
      count of keys and the blocked keys of the values on the stack. */
  lemma {:induction false} WalkSpec(st: seq<Frame>, depth: nat, keys: nat, issues: seq<JsonIssue>, o: JsonOptions)
    requires keys <= o.maxKeys
    ensures var w := Walk(st, depth, keys, issues, o);
      w.stop == Finished <==> StackFits(st, o) && keys + StackKeys(st) <= o.maxKeys
    ensures var w := Walk(st, depth, keys, issues, o);
      w.stop == Finished ==>
        w == Walked(Max(depth, StackReach(st)), keys + StackKeys(st), issues + StackMarks(st, o.blockKeys), Finished)
    decreases StackSize(st)
  {
    if st != [] {
      var t := Step(st, depth, keys, issues, o);
      if t.Go? {
        StepGo(st, depth, keys, issues, o);
        WalkSpec(t.st, t.depth, t.keys, t.issues, o);
      } else {
        StepHalt(st, depth, keys, issues, o);
      }
    }
  }

  /** A turn that goes on keeps what the stack sums up to. */
  lemma StepGo(st: seq<Frame>, depth: nat, keys: nat, issues: seq<JsonIssue>, o: JsonOptions)
    requires st != [] && keys <= o.maxKeys && Step(st, depth, keys, issues, o).Go?
    ensures var t := Step(st, depth, keys, issues, o);
      && t.keys <= o.maxKeys
      && (StackFits(st, o) <==> StackFits(t.st, o))
      && keys + StackKeys(st) == t.keys + StackKeys(t.st)
      && Max(depth, StackReach(st)) == Max(t.depth, StackReach(t.st))
      && issues + StackMarks(st, o.blockKeys) == t.issues + StackMarks(t.st, o.blockKeys)
  {
    var f := st[|st| - 1];
    var rest := st[..|st| - 1];
    assert st == rest + [f];
    StepGoShape(st, depth, keys, issues, o);
    var n := if f.v.Obj? then |f.v.members| else 0;
    var own := if f.v.Obj? then MarkBlocked(Keys(f.v.members), o.blockKeys) else [];
    assert Step(st, depth, keys, issues, o)
      == Go(rest + Frames(Kids(f.v), f.d + 1), Max(depth, f.d), keys + n, issues + own);
    PopCarry(rest, f, depth, keys, issues, o);
  }

  /** Popping `f` within the limits and pushing its kids carries the counters and issues
      over: what the old stack sums up to from the old counters, the new stack sums up to
      from the new ones. */
  lemma PopCarry(rest: seq<Frame>, f: Frame, depth: nat, keys: nat, issues: seq<JsonIssue>, o: JsonOptions)
    requires f.d <= o.maxDepth && !(f.v.Str? && |f.v.s| > o.maxStringLength)
    ensures var kids := Frames(Kids(f.v), f.d + 1);
      var n := if f.v.Obj? then |f.v.members| else 0;
      var own := if f.v.Obj? then MarkBlocked(Keys(f.v.members), o.blockKeys) else [];
      && (StackFits(rest + [f], o) <==> StackFits(rest + kids, o))
      && keys + StackKeys(rest + [f]) == (keys + n) + StackKeys(rest + kids)
      && Max(depth, StackReach(rest + [f])) == Max(Max(depth, f.d), StackReach(rest + kids))
      && issues + StackMarks(rest + [f], o.blockKeys) == (issues + own) + StackMarks(rest + kids, o.blockKeys)
  {
    PopSums(rest, f, o);
    var own := if f.v.Obj? then MarkBlocked(Keys(f.v.members), o.blockKeys) else [];
    ConcatAssoc(issues, own, StackMarks(rest + Frames(Kids(f.v), f.d + 1), o.blockKeys));
  }

  /** What a turn that goes on does: the top entry was within the limits, its kids replace
      it, and an object adds its keys and their blocked-key issues. */
  lemma StepGoShape(st: seq<Frame>, depth: nat, keys: nat, issues: seq<JsonIssue>, o: JsonOptions)
    requires st != [] && Step(st, depth, keys, issues, o).Go?
    ensures var f := st[|st| - 1];
      var t := Step(st, depth, keys, issues, o);
      && f.d <= o.maxDepth && !(f.v.Str? && |f.v.s| > o.maxStringLength)
      && t.st == st[..|st| - 1] + Frames(Kids(f.v), f.d + 1)
      && t.depth == Max(depth, f.d)
      && t.keys == keys + (if f.v.Obj? then |f.v.members| else 0)
      && (f.v.Obj? ==> t.keys <= o.maxKeys)
      && t.issues == issues + (if f.v.Obj? then MarkBlocked(Keys(f.v.members), o.blockKeys) else [])
  {
    var f := st[|st| - 1];
    if f.v.Null? || f.v.Bool? || f.v.Num? || f.v.Str? {
      assert issues + [] == issues;
    }
  }

  lemma ConcatAssoc(a: seq<JsonIssue>, b: seq<JsonIssue>, c: seq<JsonIssue>)
    ensures a + (b + c) == (a + b) + c
  {
  }

  /** Popping `f` and pushing its kids: the stack sums up to the same, less what `f` holds
      itself. */
  lemma PopSums(rest: seq<Frame>, f: Frame, o: JsonOptions)
    ensures var kids := Frames(Kids(f.v), f.d + 1);
      && (StackFits(rest + [f], o) <==>
            f.d <= o.maxDepth && !(f.v.Str? && |f.v.s| > o.maxStringLength) && StackFits(rest + kids, o))
      && StackKeys(rest + [f]) == (if f.v.Obj? then |f.v.members| else 0) + StackKeys(rest + kids)
      && StackReach(rest + [f]) == Max(f.d, StackReach(rest + kids))
      && StackMarks(rest + [f], o.blockKeys)
        == (if f.v.Obj? then MarkBlocked(Keys(f.v.members), o.blockKeys) else []) + StackMarks(rest + kids, o.blockKeys)
  {
    PopFits(rest, f, o);
    PopKeys(rest, f, o);
    PopReach(rest, f, o);
    PopMarks(rest, f, o);
  }

  lemma PopFits(rest: seq<Frame>, f: Frame, o: JsonOptions)
    ensures StackFits(rest + [f], o) <==>
      f.d <= o.maxDepth && !(f.v.Str? && |f.v.s| > o.maxStringLength)
      && StackFits(rest + Frames(Kids(f.v), f.d + 1), o)
  {
    var kids := Frames(Kids(f.v), f.d + 1);
    var st := rest + [f];
    assert st[..|st| - 1] == rest && st[|st| - 1] == f;
    assert StackFits(st, o) <==>
      f.d + Height(f.v) <= o.maxDepth && !LongIn(f.v, o.maxStringLength) && StackFits(rest, o);
    StackConcat(rest, kids, o);
    FramesSum(Kids(f.v), f.d + 1, o);
    assert LongIn(f.v, o.maxStringLength) <==>
      (f.v.Str? && |f.v.s| > o.maxStringLength) || ForestLong(Kids(f.v), o.maxStringLength);
  }

  lemma PopKeys(rest: seq<Frame>, f: Frame, o: JsonOptions)
    ensures StackKeys(rest + [f])
      == (if f.v.Obj? then |f.v.members| else 0) + StackKeys(rest + Frames(Kids(f.v), f.d + 1))
  {
    var kids := Frames(Kids(f.v), f.d + 1);
    var st := rest + [f];
    assert st[..|st| - 1] == rest && st[|st| - 1] == f;
    StackConcat(rest, kids, o);
    FramesSum(Kids(f.v), f.d + 1, o);
  }

  lemma PopReach(rest: seq<Frame>, f: Frame, o: JsonOptions)
    ensures StackReach(rest + [f]) == Max(f.d, StackReach(rest + Frames(Kids(f.v), f.d + 1)))
  {
    var kids := Frames(Kids(f.v), f.d + 1);
    var st := rest + [f];
    assert st[..|st| - 1] == rest && st[|st| - 1] == f;
    StackConcat(rest, kids, o);
    FramesSum(Kids(f.v), f.d + 1, o);
  }

  lemma PopMarks(rest: seq<Frame>, f: Frame, o: JsonOptions)
    ensures StackMarks(rest + [f], o.blockKeys)
      == (if f.v.Obj? then MarkBlocked(Keys(f.v.members), o.blockKeys) else [])
        + StackMarks(rest + Frames(Kids(f.v), f.d + 1), o.blockKeys)
  {
    var kids := Frames(Kids(f.v), f.d + 1);
    var st := rest + [f];
    assert st[..|st| - 1] == rest && st[|st| - 1] == f;
    StackConcat(rest, kids, o);
    FramesSum(Kids(f.v), f.d + 1, o);
    var own := if f.v.Obj? then MarkBlocked(Keys(f.v.members), o.blockKeys) else [];
    assert TreeMarks(f.v, o.blockKeys) == own + ForestMarks(Kids(f.v), o.blockKeys);
    ConcatAssoc(own, ForestMarks(Kids(f.v), o.blockKeys), StackMarks(rest, o.blockKeys));
  }

  /** A turn that halts does so on a broken limit. */
  lemma StepHalt(st: seq<Frame>, depth: nat, keys: nat, issues: seq<JsonIssue>, o: JsonOptions)
    requires st != [] && keys <= o.maxKeys && Step(st, depth, keys, issues, o).Halt?
    ensures Step(st, depth, keys, issues, o).w.stop != Finished
    ensures !(StackFits(st, o) && keys + StackKeys(st) <= o.maxKeys)
  {
  }

  /** `w` ends with what the walk appended to `issues`: blocked-key issues, then at most one
      limit issue, last. */
  predicate Appended(issues: seq<JsonIssue>, w: Walked) {
    && |issues| <= |w.issues| - |StopIssue(w.stop)|
    && w.issues[..|issues|] == issues
    && w.issues[|w.issues| - |StopIssue(w.stop)|..] == StopIssue(w.stop)
    && forall i :: |issues| <= i < |w.issues| - |StopIssue(w.stop)| ==> w.issues[i].BlockedKey?
  }

  /** One turn only appends: blocked-key issues when it goes on, one limit issue when it
      halts. */
  lemma StepAppends(st: seq<Frame>, depth: nat, keys: nat, issues: seq<JsonIssue>, o: JsonOptions)
    requires st != []
    ensures var t := Step(st, depth, keys, issues, o);
      t.Go? ==>
        && |issues| <= |t.issues|
        && t.issues[..|issues|] == issues
        && forall i :: |issues| <= i < |t.issues| ==> t.issues[i].BlockedKey?
    ensures var t := Step(st, depth, keys, issues, o);
      t.Halt? ==> t.w.stop != Finished && t.w.issues == issues + StopIssue(t.w.stop)
  {
    var f := st[|st| - 1];
    var t := Step(st, depth, keys, issues, o);
    if t.Go? && f.v.Obj? {
      var marks := MarkBlocked(Keys(f.v.members), o.blockKeys);
      MarkBlockedSpec(Keys(f.v.members), o.blockKeys);
      assert t.issues == issues + marks;
      forall i | |issues| <= i < |t.issues|
        ensures t.issues[i].BlockedKey?
      {
        assert t.issues[i] == marks[i - |issues|];
      }
    }
  }

  /** The walk only appends: blocked-key issues, then at most one limit issue, last. */
  lemma {:induction false} WalkAppends(st: seq<Frame>, depth: nat, keys: nat, issues: seq<JsonIssue>, o: JsonOptions)
    ensures Appended(issues, Walk(st, depth, keys, issues, o))
    decreases StackSize(st)
  {
    if st != [] {
      var t := Step(st, depth, keys, issues, o);
      StepAppends(st, depth, keys, issues, o);
      if t.Go? {
        WalkAppends(t.st, t.depth, t.keys, t.issues, o);
        var w := Walk(t.st, t.depth, t.keys, t.issues, o);
        assert w == Walk(st, depth, keys, issues, o);
        AppendedGrows(issues, t.issues, w);
      }
    }
  }

  /** A walk that appended to a longer prefix of blocked-key issues appended to the shorter. */
  lemma AppendedGrows(issues: seq<JsonIssue>, more: seq<JsonIssue>, w: Walked)
    requires |issues| <= |more| && more[..|issues|] == issues
    requires forall i :: |issues| <= i < |more| ==> more[i].BlockedKey?
    requires Appended(more, w)
    ensures Appended(issues, w)
  {
    assert w.issues[..|issues|] == w.issues[..|more|][..|issues|];
    forall i | |issues| <= i < |w.issues| - |StopIssue(w.stop)|
      ensures w.issues[i].BlockedKey?
    {
      if i < |more| {
        assert w.issues[i] == w.issues[..|more|][i];
      }
    }
  }

  /** Every issue of an appending walk was there before, names a blocked key, or is the
      limit issue it stopped on. */
  lemma AppendedMembers(issues: seq<JsonIssue>, w: Walked)
    requires Appended(issues, w)
    ensures forall x :: x in w.issues ==> x in issues || x.BlockedKey? || x in StopIssue(w.stop)
  {
    var cut := |w.issues| - |StopIssue(w.stop)|;
    forall x | x in w.issues
      ensures x in issues || x.BlockedKey? || x in StopIssue(w.stop)
    {
      var i :| 0 <= i < |w.issues| && w.issues[i] == x;
      if i < |issues| {
        assert w.issues[..|issues|][i] == x;
      } else if i >= cut {
        assert w.issues[cut..][i - cut] == x;
      }
    }
  }

  /** `analyze` on a value: it breaks on a limit exactly when the value nests deeper than
      the depth limit, holds a string longer than the string limit, or has more keys in all
      than the key limit; otherwise it reports the nesting depth, the total count of keys,
      and one blocked-key issue for each blocked object key in stack order. */
  lemma AnalyzeMeaning(root: Json, o: JsonOptions, issues: seq<JsonIssue>)
    requires 0 <= o.maxKeys
    ensures var w := Walk([Frame(root, 0)], 0, 0, issues, o);
      w.stop == Finished <==>
        Height(root) <= o.maxDepth && !LongIn(root, o.maxStringLength) && KeyTotal(root) <= o.maxKeys
    ensures var w := Walk([Frame(root, 0)], 0, 0, issues, o);
      w.stop == Finished ==>
        w.depth == Height(root) && w.keys == KeyTotal(root) && w.issues == issues + TreeMarks(root, o.blockKeys)
  {
    var st := [Frame(root, 0)];
    assert st[..0] == [];
    assert StackFits(st, o) <==> Height(root) <= o.maxDepth && !LongIn(root, o.maxStringLength);
    assert StackKeys(st) == KeyTotal(root);
    assert StackReach(st) == Height(root);
    assert StackMarks(st, o.blockKeys) == TreeMarks(root, o.blockKeys) + [];
    WalkSpec(st, 0, 0, issues, o);
  }

  // ---------------------------------------------------------------- blocked keys

  lemma {:induction false} MarkBlockedSpec(ks: seq<string>, block: seq<string>)
    ensures forall x :: x in MarkBlocked(ks, block) ==> x.BlockedKey? && x.key in ks && x.key in block
    ensures MarkBlocked(ks, block) == [] <==> forall k :: k in ks ==> k !in block
    decreases |ks|
  {
    if ks != [] {
      MarkBlockedSpec(ks[..|ks| - 1], block);
      assert forall k :: k in ks ==> k in ks[..|ks| - 1] || k == ks[|ks| - 1];
      assert forall k :: k in ks[..|ks| - 1] ==> k in ks;
    }
  }

  /** The reviver sees every label of every kid, and every key it sees below a kid. */
  lemma ReviverForestHolds(vs: seq<Json>, ls: seq<string>)
    requires |ls| == |vs|
    ensures forall i :: 0 <= i < |vs| ==> ls[i] in ReviverForest(vs, ls)
    ensures forall i, k :: 0 <= i < |vs| && k in Reviver(vs[i]) ==> k in ReviverForest(vs, ls)
  {
    forall i | 0 <= i < |vs|
      ensures ls[i] in ReviverForest(vs, ls)
    {
      ReviverSeesLabel(vs, ls, i);
    }
    forall i, k | 0 <= i < |vs| && k in Reviver(vs[i])
      ensures k in ReviverForest(vs, ls)
    {
      ReviverSeesKey(vs, ls, i, k);
    }
  }

  lemma {:induction false} ReviverSeesLabel(vs: seq<Json>, ls: seq<string>, i: nat)
    requires |ls| == |vs| && i < |vs|
    ensures ls[i] in ReviverForest(vs, ls)
    decreases |vs|
  {
    var n := |vs| - 1;
    assert ReviverForest(vs, ls) == ReviverForest(vs[..n], ls[..n]) + Reviver(vs[n]) + [ls[n]];
    if i < n {
      ReviverSeesLabel(vs[..n], ls[..n], i);
      assert ls[..n][i] == ls[i];
    }
  }

  lemma {:induction false} ReviverSeesKey(vs: seq<Json>, ls: seq<string>, i: nat, k: string)
    requires |ls| == |vs| && i < |vs| && k in Reviver(vs[i])
    ensures k in ReviverForest(vs, ls)
    decreases |vs|
  {
    var n := |vs| - 1;
    assert ReviverForest(vs, ls) == ReviverForest(vs[..n], ls[..n]) + Reviver(vs[n]) + [ls[n]];
    if i < n {
      assert vs[..n][i] == vs[i];
      ReviverSeesKey(vs[..n], ls[..n], i, k);
    }
  }

  /** Each blocked-key issue of the walk names a blocked key the reviver sees too. */
  lemma {:induction false} TreeMarksSound(v: Json, block: seq<string>)
    ensures forall x :: x in TreeMarks(v, block) ==> x.BlockedKey? && x.key in block && x.key in Reviver(v)
    decreases Size(v), 0
  {
    SizeKids(v);
    ForestMarksSound(Kids(v), block);
    ReviverForestHolds(Kids(v), Labels(v));
    if v.Obj? {
      MarkBlockedSpec(Keys(v.members), block);
      forall k | k in Keys(v.members)
        ensures k in Reviver(v)
      {
        var i :| 0 <= i < |Keys(v.members)| && Keys(v.members)[i] == k;
        assert Labels(v)[i] == k;
      }
    }
    forall x | x in ForestMarks(Kids(v), block)
      ensures x.key in Reviver(v)
    {
      var i :| 0 <= i < |Kids(v)| && x in TreeMarks(Kids(v)[i], block) && x.key in Reviver(Kids(v)[i]);
    }
  }

  lemma {:induction false} ForestMarksSound(vs: seq<Json>, block: seq<string>)
    ensures forall x :: x in ForestMarks(vs, block) ==>
      x.BlockedKey? && x.key in block && exists i :: 0 <= i < |vs| && x in TreeMarks(vs[i], block) && x.key in Reviver(vs[i])
    decreases ItemsSize(vs), 1
  {
    if vs != [] {
      var n := |vs| - 1;
      ForestMarksSound(vs[..n], block);
      TreeMarksSound(vs[n], block);
      forall x | x in ForestMarks(vs, block)
        ensures exists i :: 0 <= i < |vs| && x in TreeMarks(vs[i], block) && x.key in Reviver(vs[i])
      {
        if x !in TreeMarks(vs[n], block) {
          var i :| 0 <= i < n && x in TreeMarks(vs[..n][i], block) && x.key in Reviver(vs[..n][i]);
          assert vs[..n][i] == vs[i];
        }
      }
    }
  }

  // ---------------------------------------------------------------- properties of isJsonSafe

  /** Blank input is refused as empty, with nothing measured. */
  lemma BlankIsEmpty(raw: string, parsed: Option<Json>, o: JsonOptions)
    requires Trim(raw) == []
    ensures JsonVerdict(raw, parsed, o) == JsonResult(false, [Empty], None, |raw|, 0, 0)
  {
  }

  /** The shape of every result: `ok` exactly when there is no issue, no issue twice, the
      value present exactly when the check passes and values are returned, `too_large`
      exactly for a non-blank input longer than `maxBytes`, and at most one limit issue. */
  lemma VerdictShape(raw: string, parsed: Option<Json>, o: JsonOptions)
    ensures var r := JsonVerdict(raw, parsed, o);
      && (r.ok <==> r.issues == [])
      && NoDuplicates(r.issues)
      && (r.value.Some? <==> r.ok && o.returnValue)
      && (r.value.Some? ==> parsed == r.value)
      && (Trim(raw) != [] ==> (TooLarge in r.issues <==> |raw| > o.maxBytes))
      && (TooDeep in r.issues ==> StringTooLong !in r.issues && TooManyKeys !in r.issues)
      && (StringTooLong in r.issues ==> TooManyKeys !in r.issues)
  {
    var r := JsonVerdict(raw, parsed, o);
    var front := if |raw| > o.maxBytes then [TooLarge] else [];
    if Trim(raw) == [] {
      assert r.issues == [Empty];
    } else if parsed.None? {
      assert r.issues == front + [ParseError];
      assert NoDuplicates(r.issues) by {
        if front != [] {
          assert r.issues == [TooLarge, ParseError];
        }
      }
    } else {
      var v := parsed.value;
      var w := Walk([Frame(v, 0)], 0, 0, front + MarkBlocked(ReviverCalls(v), o.blockKeys), o);
      assert r.issues == Uniq(w.issues);
      WalkIssues(v, front, o);
      OneLimit(r.issues, front, w.stop);
      if w.issues != [] {
        assert w.issues[0] in Uniq(w.issues);
      }
    }
  }

  /** Issues that are `too_large`, blocked keys or one stop's limit issue hold at most one
      limit issue. */
  lemma OneLimit(issues: seq<JsonIssue>, front: seq<JsonIssue>, stop: Stop)
    requires front == [] || front == [TooLarge]
    requires forall x :: x in issues ==> x in front || x.BlockedKey? || x in StopIssue(stop)
    ensures TooDeep in issues ==> StringTooLong !in issues && TooManyKeys !in issues
    ensures StringTooLong in issues ==> TooManyKeys !in issues
  {
  }

  /** The issues of the walk over a parsed value: the `too_large` issue first when there is
      one, blocked keys, and at most the one limit issue the walk stopped on. */
  lemma WalkIssues(v: Json, front: seq<JsonIssue>, o: JsonOptions)
    requires front == [] || front == [TooLarge]
    ensures var w := Walk([Frame(v, 0)], 0, 0, front + MarkBlocked(ReviverCalls(v), o.blockKeys), o);
      && (forall x :: x in w.issues ==> x in front || x.BlockedKey? || x in StopIssue(w.stop))
      && (TooLarge in w.issues <==> front != [])
  {
    var marks := MarkBlocked(ReviverCalls(v), o.blockKeys);
    MarkBlockedSpec(ReviverCalls(v), o.blockKeys);
    WalkAppends([Frame(v, 0)], 0, 0, front + marks, o);
    var w := Walk([Frame(v, 0)], 0, 0, front + marks, o);
    AppendedMembers(front + marks, w);
    IssuesAfterFront(front, marks, w);
  }

  /** A walk that started from the size issue (if any) and the blocked-key issues reports
      the size issue exactly when it started from it. */
  lemma IssuesAfterFront(front: seq<JsonIssue>, marks: seq<JsonIssue>, w: Walked)
    requires front == [] || front == [TooLarge]
    requires forall x :: x in marks ==> x.BlockedKey?
    requires Appended(front + marks, w)
    requires forall x :: x in w.issues ==> x in front + marks || x.BlockedKey? || x in StopIssue(w.stop)
    ensures forall x :: x in w.issues ==> x in front || x.BlockedKey? || x in StopIssue(w.stop)
    ensures TooLarge in w.issues <==> front != []
  {
    var issues := front + marks;
    forall x | x in issues
      ensures x in front || x.BlockedKey?
    {
      if x !in front {
        assert x in marks;
      }
    }
    if front != [] {
      assert w.issues[..|issues|][0] == TooLarge;
    }
  }

  /** A parsed, non-blank input passes exactly when it is within `maxBytes`, the reviver
      sees no blocked key, and the value is within the depth, string and key limits; it
      then reports the value's nesting depth and total count of keys. */
  lemma JsonAccepted(raw: string, v: Json, o: JsonOptions)
    requires Trim(raw) != [] && 0 <= o.maxKeys
    ensures var r := JsonVerdict(raw, Some(v), o);
      r.ok <==>
        && |raw| <= o.maxBytes
        && (forall k :: k in ReviverCalls(v) ==> k !in o.blockKeys)
        && Height(v) <= o.maxDepth && !LongIn(v, o.maxStringLength) && KeyTotal(v) <= o.maxKeys
    ensures var r := JsonVerdict(raw, Some(v), o);
      r.ok ==> r.depth == Height(v) && r.keys == KeyTotal(v) && r.value == (if o.returnValue then Some(v) else None)
  {
    var front := if |raw| > o.maxBytes then [TooLarge] else [];
    var marks := MarkBlocked(ReviverCalls(v), o.blockKeys);
    var issues := front + marks;
    var w := Walk([Frame(v, 0)], 0, 0, issues, o);
    assert JsonVerdict(raw, Some(v), o).ok <==> w.issues == [];
    MarkBlockedSpec(ReviverCalls(v), o.blockKeys);
    CleanWalk(v, o, issues);
    if forall k :: k in ReviverCalls(v) ==> k !in o.blockKeys {
      assert forall k :: k in Reviver(v) ==> k in ReviverCalls(v);
      NoTreeMarks(v, o.blockKeys);
    }
    assert issues == [] <==> front == [] && marks == [];
  }

  /** The walk over a value ends with no issue exactly when it starts with none, the value
      is within the limits and holds no blocked object key. */
  lemma CleanWalk(v: Json, o: JsonOptions, issues: seq<JsonIssue>)
    requires 0 <= o.maxKeys
    ensures var w := Walk([Frame(v, 0)], 0, 0, issues, o);
      w.issues == [] <==>
        && issues == []
        && Height(v) <= o.maxDepth && !LongIn(v, o.maxStringLength) && KeyTotal(v) <= o.maxKeys
        && TreeMarks(v, o.blockKeys) == []
    ensures var w := Walk([Frame(v, 0)], 0, 0, issues, o);
      w.issues == [] ==> w.depth == Height(v) && w.keys == KeyTotal(v)
  {
    AnalyzeMeaning(v, o, issues);
    WalkAppends([Frame(v, 0)], 0, 0, issues, o);
    AppendedEmpty(issues, Walk([Frame(v, 0)], 0, 0, issues, o));
  }

  /** A walk that appended nothing kept no issue and did not stop on a limit. */
  lemma AppendedEmpty(issues: seq<JsonIssue>, w: Walked)
    requires Appended(issues, w)
    ensures w.issues == [] ==> issues == [] && w.stop == Finished
  {
    assert StopIssue(w.stop) == [] ==> w.stop == Finished;
  }

  /** A value whose reviver keys are all allowed holds no blocked object key. */
  lemma {:induction false} NoTreeMarks(v: Json, block: seq<string>)
    requires forall k :: k in Reviver(v) ==> k !in block
    ensures TreeMarks(v, block) == []
    decreases Size(v), 0
  {
    SizeKids(v);
    ReviverForestHolds(Kids(v), Labels(v));
    if v.Obj? {
      MarkBlockedSpec(Keys(v.members), block);
      forall k | k in Keys(v.members)
        ensures k in Reviver(v)
      {
        var i :| 0 <= i < |Keys(v.members)| && Keys(v.members)[i] == k;
        assert Labels(v)[i] == k;
      }
    }
    assert Reviver(v) == ReviverForest(Kids(v), Labels(v));
    NoForestMarks(Kids(v), block);
  }

  lemma {:induction false} NoForestMarks(vs: seq<Json>, block: seq<string>)
    requires forall i, k :: 0 <= i < |vs| && k in Reviver(vs[i]) ==> k !in block
    ensures ForestMarks(vs, block) == []
    decreases ItemsSize(vs), 1
  {
    if vs != [] {
      var n := |vs| - 1;
      NoTreeMarks(vs[n], block);
      forall i, k | 0 <= i < n && k in Reviver(vs[..n][i])
        ensures k !in block
      {
        assert vs[..n][i] == vs[i];
      }
      NoForestMarks(vs[..n], block);
    }
  }

  /** Under the default settings a value whose reviver sees the key `__proto__`,
      `constructor` or `prototype` is refused, whatever else it holds. */
  lemma DefaultsBlockPrototypeKeys(raw: string, v: Json, k: string)
    requires Trim(raw) != []
    requires k in ReviverCalls(v) && k in ["__proto__", "constructor", "prototype"]
    ensures !JsonVerdict(raw, Some(v), Defaults()).ok
  {
    JsonAccepted(raw, v, Defaults());
  }
}
