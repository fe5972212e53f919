/** Detection rules: compiling their regexes, evaluating their condition trees and the engine
    that runs them. */
module Rules {
  import opened Wrappers
  import opened Values

  datatype ConditionOp =
    | Equals | NotEquals | Contains | Regex | StartsWith | EndsWith | Exists | Missing | Gt | Gte | Lt | Lte

  datatype LogicalOp = And | Or | Not

  /** A leaf compares a field; with a logical operator the node combines its children. */
  datatype Condition = Condition(
    field: string, operator: Option<ConditionOp>, value: Value, logical: Option<LogicalOp>, conditions: seq<Condition>)

  datatype Rule = Rule(id: string, name: string, enabled: bool, severity: int, confidence: int, threatScore: int, conditions: Condition)

  datatype Pattern = Pattern(text: string, ignoreCase: bool)

  type Patterns = map<string, Pattern>

  /** What the language's library does: text of a value, its number, attributes of values that are not
      dictionaries, lower case, which regexes compile, and whether one is found in a text. */
  datatype Runtime = Runtime(
    text: Value -> string, number: Value -> Option<real>, attribute: (Value, string) -> Option<Value>, lower: string -> string,
    compiles: string -> bool, found: (Pattern, string) -> bool)

  // ----- fields of an event -----

  /** The parts of a dotted path. */
  function Split(path: string, part: string): seq<string>
    decreases |path|
  {
    if path == "" then [part]
    else if path[0] == '.' then [part] + Split(path[1..], "")
    else Split(path[1..], part + [path[0]])
  }

  function Part(rt: Runtime, v: Value, part: string): Value {
    if v.Dict? then (if part in v.entries then v.entries[part] else Null)
    else if rt.attribute(v, part).Some? then rt.attribute(v, part).value
    else Null
  }

  function Walk(rt: Runtime, v: Value, parts: seq<string>): Value
    decreases |parts|
  {
    if parts == [] then v
    else if !v.Dict? && rt.attribute(v, parts[0]).None? then Null
    else Walk(rt, Part(rt, v, parts[0]), parts[1..])
  }

  function FieldOf(rt: Runtime, event: Config, path: string): Value { Walk(rt, Dict(event), Split(path, "")) }

  /** Null stands for a missing field. */
  method GetField(rt: Runtime, event: Config, path: string) returns (current: Value)
    ensures current == FieldOf(rt, event, path)
  {
    var parts := Split(path, "");
    current := Dict(event);
    for i := 0 to |parts|
      invariant Walk(rt, current, parts[i..]) == FieldOf(rt, event, path)
    {
      assert parts[i..][1..] == parts[i + 1..];
      if current.Dict? {
        current := if parts[i] in current.entries then current.entries[parts[i]] else Null;
      } else if rt.attribute(current, parts[i]).Some? {
        current := rt.attribute(current, parts[i]).value;
      } else {
        return Null;
      }
    }
  }

  predicate Plain(name: string) { '.' !in name }

  lemma {:induction false} SplitPlain(name: string, part: string)
    requires Plain(name)
    ensures Split(name, part) == [part + name]
    decreases |name|
  {
    if name == "" {
      assert part + name == part;
    } else {
      assert name[0] in name && forall c | c in name[1..] :: c in name;
      SplitPlain(name[1..], part + [name[0]]);
      assert part + [name[0]] + name[1..] == part + name;
    }
  }

  lemma {:induction false} SplitAtDot(name: string, rest: string, part: string)
    requires Plain(name)
    ensures Split(name + "." + rest, part) == [part + name] + Split(rest, "")
    decreases |name|
  {
    var path := name + "." + rest;
    if name == "" {
      assert path[1..] == rest && path[0] == '.' && part + name == part;
    } else {
      assert name[0] in name && forall c | c in name[1..] :: c in name;
      assert path[1..] == name[1..] + "." + rest && path[0] == name[0];
      SplitAtDot(name[1..], rest, part + [name[0]]);
      assert part + [name[0]] + name[1..] == part + name;
    }
  }

  /** A name without dots is a key of the event; a dotted path goes on in the dictionary under its first
      name, and leads nowhere when there is none. */
  lemma FieldsByPath(rt: Runtime, event: Config, name: string, rest: string)
    requires Plain(name)
    ensures FieldOf(rt, event, name) == if name in event then event[name] else Null
    ensures name in event && event[name].Dict? ==> FieldOf(rt, event, name + "." + rest) == FieldOf(rt, event[name].entries, rest)
    ensures name in event && !event[name].Dict? && rt.attribute(event[name], rest) == None && Plain(rest)
            ==> FieldOf(rt, event, name + "." + rest) == Null
    ensures name in event && !event[name].Dict? && rt.attribute(event[name], rest).Some? && Plain(rest)
            ==> FieldOf(rt, event, name + "." + rest) == rt.attribute(event[name], rest).value
  {
    SplitPlain(name, "");
    SplitAtDot(name, rest, "");
    assert "" + name == name;
    if Plain(rest) {
      SplitPlain(rest, "");
      assert "" + rest == rest;
    }
    WalkOne(rt, Dict(event), name, Split(rest, ""));
    WalkOne(rt, Dict(event), name, []);
    assert [name] + [] == [name] && [rest] + [] == [rest];
    if name in event {
      WalkOne(rt, event[name], rest, []);
    }
    hide Split;
  }

  lemma WalkOne(rt: Runtime, v: Value, name: string, parts: seq<string>)
    ensures Walk(rt, v, [name] + parts) ==
            if v.Dict? then (if name in v.entries then Walk(rt, v.entries[name], parts) else Walk(rt, Null, parts))
            else if rt.attribute(v, name).Some? then Walk(rt, rt.attribute(v, name).value, parts)
            else Null
    ensures Walk(rt, v, []) == v
  {
    assert ([name] + parts)[1..] == parts;
  }

  // ----- evaluation; None means that a regex did not compile -----

  predicate OccursAt(needle: string, hay: string, i: int) {
    0 <= i <= |hay| - |needle| && hay[i..i + |needle|] == needle
  }

  predicate Substring(needle: string, hay: string) {
    exists i :: 0 <= i <= |hay| && OccursAt(needle, hay, i)
  }

  function Compare(rt: Runtime, v: Value, expected: Value): bool {
    if Numeric(expected) then
      rt.number(v).Some? && rt.number(expected).Some? && rt.number(v) == rt.number(expected)
    else SameValue(v, expected)
  }

  function Ordered(rt: Runtime, v: Value, expected: Value, op: ConditionOp): bool {
    var a, b := rt.number(v), rt.number(expected);
    a.Some? && b.Some? &&
    match op
    case Gt => a.value > b.value
    case Gte => a.value >= b.value
    case Lt => a.value < b.value
    case _ => a.value <= b.value
  }

  /** The compiled pattern of the field if there is one, else the leaf's own text compiled on the
      spot, which respects case. */
  function PatternFor(rt: Runtime, c: Condition, patterns: Patterns): Option<Pattern> {
    if c.field in patterns then Some(patterns[c.field])
    else if rt.compiles(rt.text(c.value)) then Some(Pattern(rt.text(c.value), false))
    else None
  }

  function EvaluateLeaf(rt: Runtime, c: Condition, v: Value, patterns: Patterns): Option<bool> {
    if c.operator == Some(Exists) then Some(v != Null)
    else if c.operator == Some(Missing) then Some(v == Null)
    else if v == Null || c.operator.None? then Some(false)
    else
      match c.operator.value
      case Equals => Some(Compare(rt, v, c.value))
      case NotEquals => Some(!Compare(rt, v, c.value))
      case Contains => Some(Substring(rt.lower(rt.text(c.value)), rt.lower(rt.text(v))))
      case Regex =>
        var pattern := PatternFor(rt, c, patterns);
        if pattern.Some? then Some(rt.found(pattern.value, rt.text(v))) else None
      case StartsWith => Some(rt.text(c.value) <= rt.text(v))
      case EndsWith => Some(|rt.text(c.value)| <= |rt.text(v)| && rt.text(v)[|rt.text(v)| - |rt.text(c.value)|..] == rt.text(c.value))
      case Gt => Some(Ordered(rt, Str(rt.text(v)), c.value, Gt))
      case Gte => Some(Ordered(rt, Str(rt.text(v)), c.value, Gte))
      case Lt => Some(Ordered(rt, Str(rt.text(v)), c.value, Lt))
      case _ => Some(Ordered(rt, Str(rt.text(v)), c.value, Lte))
  }

  function Evaluate(rt: Runtime, c: Condition, event: Config, patterns: Patterns): Option<bool>
    decreases c, 1
  {
    match c.logical
    case Some(And) => EvaluateUntil(rt, c.conditions, event, patterns, false)
    case Some(Or) => EvaluateUntil(rt, c.conditions, event, patterns, true)
    case Some(Not) =>
      var any := EvaluateUntil(rt, c.conditions, event, patterns, true);
      if any.None? then None else Some(!any.value)
    case None => EvaluateLeaf(rt, c, FieldOf(rt, event, c.field), patterns)
  }

  /** The children in order, up to the first that gives `stop`; otherwise the opposite. */
  function EvaluateUntil(rt: Runtime, cs: seq<Condition>, event: Config, patterns: Patterns, stop: bool): Option<bool>
    decreases cs, 0
  {
    if cs == [] then Some(!stop)
    else
      var first := Evaluate(rt, cs[0], event, patterns);
      if first.None? || first.value == stop then first else EvaluateUntil(rt, cs[1..], event, patterns, stop)
  }

  // ----- what conditions mean -----

  /** Both have numbers, and these stand in the relation. */
  ghost predicate Compares(rt: Runtime, v: Value, w: Value, rel: (real, real) -> bool) {
    exists a, b :: rt.number(v) == Some(a) && rt.number(w) == Some(b) && rel(a, b)
  }

  function Above(): (real, real) -> bool { (a: real, b: real) => b < a }
  function NotBelow(): (real, real) -> bool { (a: real, b: real) => !(a < b) }
  function Below(): (real, real) -> bool { (a: real, b: real) => a < b }
  function NotAbove(): (real, real) -> bool { (a: real, b: real) => !(b < a) }
  function Equal(): (real, real) -> bool { (a: real, b: real) => a == b }

  /** With a number one compares numbers, with anything else values. */
  ghost predicate IsEqual(rt: Runtime, v: Value, expected: Value) {
    if expected.Int? || expected.Float? || expected.Bool? then Compares(rt, v, expected, Equal())
    else SameValue(v, expected)
  }

  /** The meaning of a leaf for the value of its field, null for a missing one. A comparison reads the text
      of the value as a number; a regex is searched ignoring case. */
  ghost predicate LeafMeans(rt: Runtime, c: Condition, v: Value) {
    match c.operator
    case None => false
    case Some(Exists) => v != Null
    case Some(Missing) => v == Null
    case Some(Equals) => v != Null && IsEqual(rt, v, c.value)
    case Some(NotEquals) => v != Null && !IsEqual(rt, v, c.value)
    case Some(Contains) => v != Null && exists front, back :: rt.lower(rt.text(v)) == front + rt.lower(rt.text(c.value)) + back
    case Some(StartsWith) => v != Null && exists rest :: rt.text(v) == rt.text(c.value) + rest
    case Some(EndsWith) => v != Null && exists rest :: rt.text(v) == rest + rt.text(c.value)
    case Some(Regex) => v != Null && rt.found(Pattern(rt.text(c.value), true), rt.text(v))
    case Some(Gt) => v != Null && Compares(rt, Str(rt.text(v)), c.value, Above())
    case Some(Gte) => v != Null && Compares(rt, Str(rt.text(v)), c.value, NotBelow())
    case Some(Lt) => v != Null && Compares(rt, Str(rt.text(v)), c.value, Below())
    case Some(Lte) => v != Null && Compares(rt, Str(rt.text(v)), c.value, NotAbove())
  }

  /** The meaning of a condition, without any cache. */
  ghost predicate Holds(rt: Runtime, c: Condition, event: Config)
    decreases c
  {
    match c.logical
    case Some(And) => forall x | x in c.conditions :: Holds(rt, x, event)
    case Some(Or) => exists x | x in c.conditions :: Holds(rt, x, event)
    case Some(Not) => !exists x | x in c.conditions :: Holds(rt, x, event)
    case None => LeafMeans(rt, c, FieldOf(rt, event, c.field))
  }

  lemma SubstringIsInside(needle: string, hay: string)
    ensures Substring(needle, hay) <==> exists front, back :: hay == front + needle + back
  {
    if i :| 0 <= i <= |hay| && OccursAt(needle, hay, i) {
      assert hay == hay[..i] + needle + hay[i + |needle|..];
    }
    if front, back :| hay == front + needle + back {
      assert OccursAt(needle, hay, |front|);
    }
  }

  lemma PrefixMeans(p: string, s: string)
    ensures p <= s <==> exists rest :: s == p + rest
  {
    if p <= s { assert s == p + s[|p|..]; }
  }

  lemma SuffixMeans(p: string, s: string)
    ensures (|p| <= |s| && s[|s| - |p|..] == p) <==> exists rest :: s == rest + p
  {
    if |p| <= |s| && s[|s| - |p|..] == p { assert s == s[..|s| - |p|] + p; }
  }

  lemma ComparesNumbers(rt: Runtime, v: Value, w: Value, rel: (real, real) -> bool)
    ensures Compares(rt, v, w, rel) <==> rt.number(v).Some? && rt.number(w).Some? && rel(rt.number(v).value, rt.number(w).value)
  {
    if rt.number(v).Some? && rt.number(w).Some? {
      var a, b := rt.number(v).value, rt.number(w).value;
      assert rel(a, b) ==> rt.number(v) == Some(a) && rt.number(w) == Some(b) && rel(a, b);
    }
  }

  lemma OrderIsAsMeant(rt: Runtime, v: Value, w: Value)
    ensures Ordered(rt, v, w, Gt) <==> Compares(rt, v, w, Above())
    ensures Ordered(rt, v, w, Gte) <==> Compares(rt, v, w, NotBelow())
    ensures Ordered(rt, v, w, Lt) <==> Compares(rt, v, w, Below())
    ensures Ordered(rt, v, w, Lte) <==> Compares(rt, v, w, NotAbove())
  {
    ComparesNumbers(rt, v, w, Above());
    ComparesNumbers(rt, v, w, NotBelow());
    ComparesNumbers(rt, v, w, Below());
    ComparesNumbers(rt, v, w, NotAbove());
    hide Compares;
  }

  lemma EqualityIsAsMeant(rt: Runtime, v: Value, w: Value)
    ensures Compare(rt, v, w) <==> IsEqual(rt, v, w)
  {
    ComparesNumbers(rt, v, w, Equal());
    hide Compares, SameValue;
  }

  lemma TextLeavesAreAsMeant(rt: Runtime, c: Condition, v: Value, patterns: Patterns)
    requires c.operator in [Some(Contains), Some(StartsWith), Some(EndsWith)]
    ensures EvaluateLeaf(rt, c, v, patterns) == Some(LeafMeans(rt, c, v))
  {
    SubstringIsInside(rt.lower(rt.text(c.value)), rt.lower(rt.text(v)));
    PrefixMeans(rt.text(c.value), rt.text(v));
    SuffixMeans(rt.text(c.value), rt.text(v));
    hide Substring;
  }

  /** Each operator but the regex is evaluated as it is meant, whatever the cache; on null only those that
      ask for it hold. */
  lemma LeavesAreAsMeant(rt: Runtime, c: Condition, v: Value, patterns: Patterns)
    requires c.operator != Some(Regex)
    ensures EvaluateLeaf(rt, c, v, patterns) == Some(LeafMeans(rt, c, v))
  {
    if c.operator in [Some(Contains), Some(StartsWith), Some(EndsWith)] {
      hide *;
      TextLeavesAreAsMeant(rt, c, v, patterns);
    } else {
      OrderIsAsMeant(rt, Str(rt.text(v)), c.value);
      EqualityIsAsMeant(rt, v, c.value);
      hide Substring, Ordered, Compare, Compares, IsEqual;
    }
  }

  predicate IsRegex(c: Condition) { c.logical.None? && c.operator == Some(Regex) }

  // ----- compilation -----

  /** The leaves from left to right. */
  function Leaves(c: Condition): seq<Condition>
    decreases c, 1
  {
    if c.logical.Some? then LeavesOf(c.conditions) else [c]
  }

  function LeavesOf(cs: seq<Condition>): seq<Condition>
    decreases cs, 0
  {
    if cs == [] then [] else Leaves(cs[0]) + LeavesOf(cs[1..])
  }

  predicate Compiled(c: Condition) { IsRegex(c) && Truthy(c.value) }

  /** The cache after the leaves, in order: a later pattern replaces an earlier one for the same
      field. None when a regex does not compile. */
  function Cache(rt: Runtime, leaves: seq<Condition>): Option<Patterns> {
    if leaves == [] then Some(map[])
    else
      var last := leaves[|leaves| - 1];
      var before := Cache(rt, leaves[..|leaves| - 1]);
      if before.None? || !Compiled(last) then before
      else if rt.compiles(rt.text(last.value)) then Some(before.value[last.field := Pattern(rt.text(last.value), true)])
      else None
  }

  function CacheOf(rt: Runtime, rule: Rule): Option<Patterns> { Cache(rt, Leaves(rule.conditions)) }

  /** A regex that does not compile fails the whole rule. */
  lemma {:induction false} CacheFails(rt: Runtime, a: seq<Condition>, b: seq<Condition>)
    requires Cache(rt, a) == None
    ensures Cache(rt, a + b) == None
    decreases |b|
  {
    if b == [] {
      assert a + b == a;
    } else {
      CacheFails(rt, a, b[..|b| - 1]);
      assert (a + b)[..|a + b| - 1] == a + b[..|b| - 1];
    }
  }

  lemma {:induction false} LeavesAppend(a: seq<Condition>, b: seq<Condition>)
    ensures LeavesOf(a + b) == LeavesOf(a) + LeavesOf(b)
  {
    if a == [] {
      assert a + b == b;
    } else {
      LeavesAppend(a[1..], b);
      assert (a + b)[1..] == a[1..] + b && (a + b)[0] == a[0];
      var head, tail, rest := Leaves(a[0]), LeavesOf(a[1..]), LeavesOf(b);
      assert LeavesOf(a + b) == head + (tail + rest) && LeavesOf(a) == head + tail;
      hide LeavesOf, Leaves;
    }
  }

  lemma LeavesPrefix(cs: seq<Condition>, i: nat)
    requires i < |cs|
    ensures LeavesOf(cs[..i + 1]) == LeavesOf(cs[..i]) + Leaves(cs[i])
  {
    assert cs[..i + 1] == cs[..i] + [cs[i]];
    LeavesAppend(cs[..i], [cs[i]]);
    assert LeavesOf([cs[i]]) == Leaves(cs[i]) + [];
  }

  lemma LeavesSplit(cs: seq<Condition>, i: nat)
    requires i <= |cs|
    ensures LeavesOf(cs) == LeavesOf(cs[..i]) + LeavesOf(cs[i..])
  {
    assert cs == cs[..i] + cs[i..];
    LeavesAppend(cs[..i], cs[i..]);
  }

  lemma NextChild(cs: seq<Condition>, i: nat, done: seq<Condition>)
    requires i < |cs|
    ensures (done + LeavesOf(cs[..i])) + Leaves(cs[i]) == done + LeavesOf(cs[..i + 1])
  {
    LeavesPrefix(cs, i);
  }

  lemma ChildFails(rt: Runtime, cs: seq<Condition>, i: nat, done: seq<Condition>)
    requires i <= |cs| && Cache(rt, done + LeavesOf(cs[..i])) == None
    ensures Cache(rt, done + LeavesOf(cs)) == None
  {
    LeavesSplit(cs, i);
    CacheFails(rt, done + LeavesOf(cs[..i]), LeavesOf(cs[i..]));
    assert done + LeavesOf(cs) == (done + LeavesOf(cs[..i])) + LeavesOf(cs[i..]);
  }

  lemma NoChildren(done: seq<Condition>)
    ensures done + LeavesOf([]) == done
  {
  }

  lemma CacheStep(rt: Runtime, done: seq<Condition>, c: Condition, patterns: Patterns)
    requires Cache(rt, done) == Some(patterns)
    ensures Cache(rt, done + [c]) ==
            if !Compiled(c) then Some(patterns)
            else if rt.compiles(rt.text(c.value)) then Some(patterns[c.field := Pattern(rt.text(c.value), true)])
            else None
  {}

  /** Visits a condition tree and adds its patterns to the cache of the leaves `done` so far;
      None on a regex that does not compile. */
  method Visit(rt: Runtime, c: Condition, patterns: Patterns, ghost done: seq<Condition>) returns (r: Option<Patterns>)
    requires Cache(rt, done) == Some(patterns)
    ensures r == Cache(rt, done + Leaves(c))
    decreases c
  {
    hide Cache, LeavesOf;
    if c.logical.Some? {
      r := Some(patterns);
      var cs := c.conditions;
      assert cs[..0] == [];
      NoChildren(done);
      for i := 0 to |cs|
        invariant r.Some? && r == Cache(rt, done + LeavesOf(cs[..i]))
      {
        NextChild(cs, i, done);
        r := Visit(rt, cs[i], r.value, done + LeavesOf(cs[..i]));
        if r.None? {
          ChildFails(rt, cs, i + 1, done);
          return;
        }
      }
      assert cs[..|cs|] == cs;
    } else {
      CacheStep(rt, done, c, patterns);
      r := Some(patterns);
      if Compiled(c) {
        if !rt.compiles(rt.text(c.value)) {
          return None;
        }
        r := Some(patterns[c.field := Pattern(rt.text(c.value), true)]);
      }
    }
  }

  method CompileRule(rt: Runtime, rule: Rule) returns (r: Option<Patterns>)
    ensures r == CacheOf(rt, rule)
  {
    assert [] + Leaves(rule.conditions) == Leaves(rule.conditions);
    r := Visit(rt, rule.conditions, map[], []);
  }

  /** The caches of the first `n` rules by rule id; None when one of them does not compile. */
  function CachesOf(rt: Runtime, rules: seq<Rule>, n: nat): Option<CompiledRules>
    requires n <= |rules|
  {
    if n == 0 then Some(map[])
    else
      var before, last := CachesOf(rt, rules, n - 1), CacheOf(rt, rules[n - 1]);
      if before.None? || last.None? then None else Some(before.value[rules[n - 1].id := last.value])
  }

  lemma {:induction false} CachesFail(rt: Runtime, rules: seq<Rule>, n: nat)
    requires n <= |rules| && CachesOf(rt, rules, n).None?
    ensures CachesOf(rt, rules, |rules|).None?
    decreases |rules| - n
  {
    if n < |rules| {
      CachesFail(rt, rules, n + 1);
    }
  }

  method CompileRules(rt: Runtime, rules: seq<Rule>) returns (r: Option<CompiledRules>)
    ensures r == CachesOf(rt, rules, |rules|)
  {
    var caches: CompiledRules := map[];
    for i := 0 to |rules|
      invariant CachesOf(rt, rules, i) == Some(caches)
    {
      var patterns := CompileRule(rt, rules[i]);
      if patterns.None? {
        CachesFail(rt, rules, i + 1);
        return None;
      }
      caches := caches[rules[i].id := patterns.value];
    }
    return Some(caches);
  }

  // ----- cached evaluation means what the conditions mean -----

  /** Every regex leaf's field has a leaf that is compiled, and regex leaves on one field have the same
      text. */
  ghost predicate Uniform(rt: Runtime, leaves: seq<Condition>) {
    && (forall a | a in leaves && IsRegex(a) :: exists b :: b in leaves && Compiled(b) && b.field == a.field)
    && (forall a, b | a in leaves && b in leaves && IsRegex(a) && IsRegex(b) && a.field == b.field ::
          rt.text(a.value) == rt.text(b.value))
  }

  /** The cache holds each regex leaf's own pattern, ignoring case. */
  ghost predicate CacheFits(rt: Runtime, leaves: seq<Condition>, patterns: Patterns) {
    forall c | c in leaves && IsRegex(c) :: Fits(rt, c, patterns)
  }

  predicate Fits(rt: Runtime, c: Condition, patterns: Patterns) {
    c.field in patterns && patterns[c.field] == Pattern(rt.text(c.value), true)
  }

  /** The field's cached pattern is that of a compiled leaf. */
  ghost predicate HasSource(rt: Runtime, leaves: seq<Condition>, patterns: Patterns, field: string) {
    exists c :: c in leaves && Compiled(c) && c.field == field && Fits(rt, c, patterns)
  }

  /** The cache has a pattern for the fields of the compiled leaves, each from one of them. */
  lemma {:induction false} CachedAreCompiled(rt: Runtime, leaves: seq<Condition>)
    requires Cache(rt, leaves).Some?
    ensures var cache := Cache(rt, leaves).value;
      && (forall c | c in leaves && Compiled(c) :: c.field in cache)
      && forall f | f in cache :: HasSource(rt, leaves, cache, f)
  {
    if leaves != [] {
      var n := |leaves| - 1;
      var front, last := leaves[..n], leaves[n];
      assert leaves == front + [last];
      CachedAreCompiled(rt, front);
      var before, cache := Cache(rt, front).value, Cache(rt, leaves).value;
      forall f | f in cache ensures HasSource(rt, leaves, cache, f) {
        if Compiled(last) && f == last.field {
          assert last in leaves && Fits(rt, last, cache);
        } else {
          var c :| c in front && Compiled(c) && c.field == f && Fits(rt, c, before);
          assert c in leaves && Fits(rt, c, cache);
        }
      }
    }
  }

  /** Exactly when the cache of a rule that compiles holds every leaf's own pattern. */
  lemma CacheFitsIffUniform(rt: Runtime, leaves: seq<Condition>)
    requires Cache(rt, leaves).Some?
    ensures CacheFits(rt, leaves, Cache(rt, leaves).value) <==> Uniform(rt, leaves)
  {
    var cache := Cache(rt, leaves).value;
    CachedAreCompiled(rt, leaves);
    hide Cache, IsRegex, Compiled, HasSource, Fits;
    if CacheFits(rt, leaves, cache) {
      forall a | a in leaves && IsRegex(a) ensures HasSource(rt, leaves, cache, a.field) {
        FieldIsCached(rt, a, cache);
      }
      FittingIsUniform(rt, leaves, cache);
    }
    if Uniform(rt, leaves) {
      forall c | c in leaves && IsRegex(c) ensures Fits(rt, c, cache) {
        assert HasSource(rt, leaves, cache, c.field);
        UniformLeafFits(rt, leaves, cache, c);
      }
    }
  }

  lemma FieldIsCached(rt: Runtime, c: Condition, cache: Patterns)
    requires Fits(rt, c, cache)
    ensures c.field in cache
  {}

  lemma UniformLeafFits(rt: Runtime, leaves: seq<Condition>, cache: Patterns, c: Condition)
    requires Uniform(rt, leaves) && c in leaves && IsRegex(c) && HasSource(rt, leaves, cache, c.field)
    ensures Fits(rt, c, cache)
  {}

  lemma FittingIsUniform(rt: Runtime, leaves: seq<Condition>, cache: Patterns)
    requires CacheFits(rt, leaves, cache)
    requires forall a | a in leaves && IsRegex(a) :: HasSource(rt, leaves, cache, a.field)
    ensures Uniform(rt, leaves)
  {
    forall a, b | a in leaves && b in leaves && IsRegex(a) && IsRegex(b) && a.field == b.field
      ensures rt.text(a.value) == rt.text(b.value)
    {
      assert Fits(rt, a, cache) && Fits(rt, b, cache);
    }
  }

  /** A leaf is evaluated as its own pattern ignoring case, under every regex semantics and for every
      value, exactly when the cache holds that pattern. */
  lemma LeafAgreesIffFits(rt: Runtime, c: Condition, patterns: Patterns)
    requires IsRegex(c)
    ensures Fits(rt, c, patterns) <==> forall found, v | v != Null ::
              EvaluateLeaf(rt.(found := found), c, v, patterns) == Some(found(Pattern(rt.text(c.value), true), rt.text(v)))
  {
    if !Fits(rt, c, patterns) {
      var own := Pattern(rt.text(c.value), true);
      var found := (p: Pattern, s: string) => p == own;
      assert EvaluateLeaf(rt.(found := found), c, Str(""), patterns) != Some(found(own, rt.text(Str(""))));
    }
  }

  lemma {:induction false} CachedUntil(rt: Runtime, cs: seq<Condition>, event: Config, patterns: Patterns, stop: bool)
    requires CacheFits(rt, LeavesOf(cs), patterns)
    ensures EvaluateUntil(rt, cs, event, patterns, stop) ==
            Some(if exists x :: x in cs && Holds(rt, x, event) == stop then stop else !stop)
    decreases cs, 0
  {
    if cs != [] {
      assert CacheFits(rt, Leaves(cs[0]), patterns) && CacheFits(rt, LeavesOf(cs[1..]), patterns);
      CachedMeansDirect(rt, cs[0], event, patterns);
      CachedUntil(rt, cs[1..], event, patterns, stop);
      assert cs[0] in cs;
      assert forall x :: x in cs <==> x == cs[0] || x in cs[1..];
    }
  }

  /** With a fitting cache, evaluation never fails and gives the direct meaning of the tree. */
  lemma {:induction false} CachedMeansDirect(rt: Runtime, c: Condition, event: Config, patterns: Patterns)
    requires CacheFits(rt, Leaves(c), patterns)
    ensures Evaluate(rt, c, event, patterns) == Some(Holds(rt, c, event))
    decreases c, 1
  {
    match c.logical {
      case Some(And) => CachedUntil(rt, c.conditions, event, patterns, false);
      case Some(Or) => CachedUntil(rt, c.conditions, event, patterns, true);
      case Some(Not) => CachedUntil(rt, c.conditions, event, patterns, true);
      case None =>
        assert c in Leaves(c);
        if !IsRegex(c) {
          LeavesAreAsMeant(rt, c, FieldOf(rt, event, c.field), patterns);
          hide EvaluateLeaf, LeafMeans;
        }
    }
  }

  function RegexLeaf(field: string, value: Value): Condition { Condition(field, Some(Regex), value, None, []) }

  function EitherOf(a: Condition, b: Condition): Condition { Condition("", None, Null, Some(Or), [a, b]) }

  function OwnPattern(rt: Runtime, v: Value): Pattern { Pattern(rt.text(v), true) }

  /** Two patterns for one field: the condition holds if the event's text matches either, but both
      leaves are searched with the second, which differs exactly when the first alone matches. */
  lemma MixedPatternsShareTheLast(rt: Runtime, field: string, first: Value, second: Value, event: Config)
    requires Truthy(first) && Truthy(second) && rt.compiles(rt.text(first)) && rt.compiles(rt.text(second))
    requires FieldOf(rt, event, field) != Null
    ensures var both := EitherOf(RegexLeaf(field, first), RegexLeaf(field, second));
            var cache, text := Cache(rt, Leaves(both)), rt.text(FieldOf(rt, event, field));
            var one, two := rt.found(OwnPattern(rt, first), text), rt.found(OwnPattern(rt, second), text);
      && cache.Some? && (Holds(rt, both, event) <==> one || two)
      && Evaluate(rt, both, event, cache.value) == Some(two)
      && (Evaluate(rt, both, event, cache.value) != Some(Holds(rt, both, event)) <==> one && !two)
  {
    var a, b := RegexLeaf(field, first), RegexLeaf(field, second);
    var cache := map[field := OwnPattern(rt, second)];
    LeavesOfTwo(a, b);
    CacheOfTwo(rt, field, first, second);
    var two := rt.found(OwnPattern(rt, second), rt.text(FieldOf(rt, event, field)));
    assert Evaluate(rt, a, event, cache) == Some(two) && Evaluate(rt, b, event, cache) == Some(two);
    HoldsEither(rt, a, b, event);
    hide Cache, Leaves, LeavesOf, FieldOf;
    EitherAlike(rt, a, b, event, cache, two);
  }

  lemma HoldsEither(rt: Runtime, a: Condition, b: Condition, event: Config)
    ensures Holds(rt, EitherOf(a, b), event) <==> Holds(rt, a, event) || Holds(rt, b, event)
  {
    assert a in EitherOf(a, b).conditions && b in EitherOf(a, b).conditions;
  }

  lemma LeavesOfTwo(a: Condition, b: Condition)
    requires a.logical.None? && b.logical.None?
    ensures Leaves(EitherOf(a, b)) == [a, b]
  {
    assert [a, b][1..] == [b] && [b][1..] == [];
    assert LeavesOf([b]) == [b] + LeavesOf([]) == [b];
    assert LeavesOf([a, b]) == [a] + LeavesOf([b]) == [a] + [b];
  }

  lemma CacheOfOne(rt: Runtime, field: string, value: Value)
    requires Truthy(value) && rt.compiles(rt.text(value))
    ensures Cache(rt, [RegexLeaf(field, value)]) == Some(map[field := OwnPattern(rt, value)])
  {
    var leaf := RegexLeaf(field, value);
    assert [leaf][..0] == [];
    assert Cache(rt, []) == Some(map[]);
  }

  lemma CacheOfTwo(rt: Runtime, field: string, first: Value, second: Value)
    requires Truthy(first) && Truthy(second) && rt.compiles(rt.text(first)) && rt.compiles(rt.text(second))
    ensures Cache(rt, [RegexLeaf(field, first), RegexLeaf(field, second)]) == Some(map[field := OwnPattern(rt, second)])
  {
    var a, b := RegexLeaf(field, first), RegexLeaf(field, second);
    var one := map[field := OwnPattern(rt, first)];
    hide Cache;
    CacheOfOne(rt, field, first);
    CacheStep(rt, [a], b, one);
    assert [a] + [b] == [a, b];
    assert one[field := OwnPattern(rt, second)] == map[field := OwnPattern(rt, second)];
  }

  lemma EitherAlike(rt: Runtime, a: Condition, b: Condition, event: Config, cache: Patterns, verdict: bool)
    requires Evaluate(rt, a, event, cache) == Some(verdict) && Evaluate(rt, b, event, cache) == Some(verdict)
    ensures Evaluate(rt, EitherOf(a, b), event, cache) == Some(verdict)
  {
    assert EvaluateUntil(rt, [b], event, cache, true) == Some(verdict);
  }

  /** A falsy pattern is not compiled: where the event's text matches it only if case is ignored, the
      condition holds, and evaluation says it does not. One that does not compile makes evaluation fail. */
  lemma FalsyPatternsRespectCase(rt: Runtime, field: string, value: Value, event: Config)
    requires !Truthy(value) && FieldOf(rt, event, field) != Null
    ensures var leaf, text := RegexLeaf(field, value), rt.text(FieldOf(rt, event, field));
            var cache := Cache(rt, Leaves(leaf));
      && cache == Some(map[])
      && (Holds(rt, leaf, event) <==> rt.found(Pattern(rt.text(value), true), text))
      && Evaluate(rt, leaf, event, map[]) ==
         if rt.compiles(rt.text(value)) then Some(rt.found(Pattern(rt.text(value), false), text)) else None
  {
    var leaf := RegexLeaf(field, value);
    assert Leaves(leaf) == [leaf] && [leaf][..0] == [];
    assert Cache(rt, []) == Some(map[]);
  }

  // ----- the engine -----

  type CompiledRules = map<string, Patterns>

  function MatchOf(rule: Rule, event: Config, correlationId: string): RuleMatch {
    RuleMatch(rule.id, rule.name, if "event_id" in event then event["event_id"] else Str(""), correlationId,
              rule.confidence, rule.severity, rule.threatScore, "Matched rule: " + rule.name + " (" + rule.id + ")")
  }

  function PatternsOf(compiled: CompiledRules, id: string): Patterns {
    if id in compiled then compiled[id] else map[]
  }

  /** The matches of the first `n` rules: enabled and true; a rule that fails is passed over. */
  function Matches(rt: Runtime, rules: seq<Rule>, n: nat, enabled: set<string>, compiled: CompiledRules, event: Config, correlationId: string): seq<RuleMatch>
    requires n <= |rules|
  {
    if n == 0 then []
    else
      var rule := rules[n - 1];
      Matches(rt, rules, n - 1, enabled, compiled, event, correlationId)
      + if rule.id in enabled && Evaluate(rt, rule.conditions, event, PatternsOf(compiled, rule.id)) == Some(true)
        then [MatchOf(rule, event, correlationId)] else []
  }

  /** The enabled rules that hold, in load order. */
  ghost function HoldingMatches(rt: Runtime, rules: seq<Rule>, enabled: set<string>, event: Config, correlationId: string): seq<RuleMatch> {
    if rules == [] then []
    else
      var last := rules[|rules| - 1];
      HoldingMatches(rt, rules[..|rules| - 1], enabled, event, correlationId)
      + if last.id in enabled && Holds(rt, last.conditions, event) then [MatchOf(last, event, correlationId)] else []
  }

  ghost predicate DistinctIds(rules: seq<Rule>) {
    forall i, j | 0 <= i < j < |rules| :: rules[i].id != rules[j].id
  }

  /** Every rule has been compiled from its own, uniform conditions. */
  ghost predicate FitsAll(rt: Runtime, rules: seq<Rule>, compiled: CompiledRules) {
    forall r | r in rules :: CacheFits(rt, Leaves(r.conditions), PatternsOf(compiled, r.id))
  }

  lemma {:induction false} MatchesAreTheHoldingRules(rt: Runtime, rules: seq<Rule>, n: nat, enabled: set<string>, compiled: CompiledRules, event: Config, correlationId: string)
    requires n <= |rules| && FitsAll(rt, rules, compiled)
    ensures Matches(rt, rules, n, enabled, compiled, event, correlationId) == HoldingMatches(rt, rules[..n], enabled, event, correlationId)
  {
    if n > 0 {
      MatchesAreTheHoldingRules(rt, rules, n - 1, enabled, compiled, event, correlationId);
      assert rules[..n][..n - 1] == rules[..n - 1];
      assert rules[n - 1] in rules;
      CachedMeansDirect(rt, rules[n - 1].conditions, event, PatternsOf(compiled, rules[n - 1].id));
    }
  }

  /** What a match says about its rule and the event. */
  ghost predicate Reports(m: RuleMatch, rule: Rule, event: Config, correlationId: string) {
    && m.ruleId == rule.id && m.ruleName == rule.name && m.correlationId == correlationId
    && m.confidence == rule.confidence && m.severity == rule.severity && m.threatScore == rule.threatScore
    && ("event_id" in event ==> m.eventId == event["event_id"])
    && ("event_id" !in event ==> m.eventId == Str(""))
    && m.evidence == "Matched rule: " + rule.name + " (" + rule.id + ")"
  }

  /** Each match reports an enabled rule that holds, and each such rule is reported. */
  lemma {:induction false} MatchesReportRules(rt: Runtime, rules: seq<Rule>, enabled: set<string>, event: Config, correlationId: string, m: RuleMatch)
    ensures m in HoldingMatches(rt, rules, enabled, event, correlationId) <==>
            exists r :: r in rules && r.id in enabled && Holds(rt, r.conditions, event) && Reports(m, r, event, correlationId)
  {
    hide Holds;
    if rules != [] {
      var front, last := rules[..|rules| - 1], rules[|rules| - 1];
      assert rules == front + [last];
      MatchesReportRules(rt, front, enabled, event, correlationId, m);
      assert m == MatchOf(last, event, correlationId) <==> Reports(m, last, event, correlationId);
      hide MatchOf, Reports;
    }
  }

  class RuleEngine {
    const rt: Runtime
    var rules: seq<Rule>
    var compiled: CompiledRules
    var enabled: set<string>

    /** All loaded rules have ids of their own and fitting caches. */
    ghost predicate Valid()
      reads this
    {
      DistinctIds(rules) && FitsAll(rt, rules, compiled)
    }

    constructor (rt: Runtime)
      ensures this.rt == rt && rules == [] && enabled == {} && Valid()
    {
      this.rt := rt;
      rules, compiled, enabled := [], map[], {};
    }

    /** The rules are listed before they are compiled; when one does not compile, they stay
        listed but nothing is cached or enabled. */
    method LoadRules(more: seq<Rule>) returns (ok: bool)
      modifies this
      ensures rules == old(rules) + more
      ensures ok == CachesOf(rt, more, |more|).Some?
      ensures compiled == if ok then old(compiled) + CachesOf(rt, more, |more|).value else old(compiled)
      ensures enabled == if ok then old(enabled) + EnabledIds(more) else old(enabled)
    {
      rules := rules + more;
      var caches := CompileRules(rt, more);
      if caches.None? {
        return false;
      }
      compiled := compiled + caches.value;
      for i := 0 to |more|
        modifies this`enabled
        invariant enabled == old(enabled) + EnabledIds(more[..i])
      {
        assert more[..i + 1] == more[..i] + [more[i]];
        if more[i].enabled {
          enabled := enabled + {more[i].id};
        }
      }
      assert more[..|more|] == more;
      return true;
    }

    method EnableRule(id: string)
      modifies this
      ensures rules == old(rules) && compiled == old(compiled)
      ensures enabled == old(enabled) + if exists r :: r in rules && r.id == id then {id} else {}
    {
      for i := 0 to |rules|
        invariant rules == old(rules) && compiled == old(compiled) && enabled == old(enabled)
        invariant forall j | 0 <= j < i :: rules[j].id != id
      {
        if rules[i].id == id {
          enabled := enabled + {id};
          assert rules[i] in rules;
          return;
        }
      }
    }

    method DisableRule(id: string)
      modifies this
      ensures rules == old(rules) && compiled == old(compiled) && enabled == old(enabled) - {id}
    {
      enabled := enabled - {id};
    }

    method EvaluateEvent(event: Config, correlationId: string) returns (matches: seq<RuleMatch>)
      ensures matches == Matches(rt, rules, |rules|, enabled, compiled, event, correlationId)
      ensures Valid() ==> matches == HoldingMatches(rt, rules, enabled, event, correlationId)
      ensures Valid() ==> forall m :: m in matches <==>
                exists r :: r in rules && r.id in enabled && Holds(rt, r.conditions, event) && Reports(m, r, event, correlationId)
    {
      matches := [];
      for i := 0 to |rules|
        invariant matches == Matches(rt, rules, i, enabled, compiled, event, correlationId)
      {
        if rules[i].id !in enabled {
          continue;
        }
        var matched := Evaluate(rt, rules[i].conditions, event, PatternsOf(compiled, rules[i].id));
        if matched == Some(true) {
          matches := matches + [MatchOf(rules[i], event, correlationId)];
        }
      }
      if Valid() {
        MatchesAreTheHoldingRules(rt, rules, |rules|, enabled, compiled, event, correlationId);
        assert rules[..|rules|] == rules;
        hide *;
        forall m {
          MatchesReportRules(rt, rules, enabled, event, correlationId, m);
        }
      }
    }
  }

  function EnabledIds(rules: seq<Rule>): set<string> {
    set r | r in rules && r.enabled :: r.id
  }

  lemma {:induction false} CachedIds(rt: Runtime, rules: seq<Rule>, n: nat, id: string)
    requires n <= |rules| && CachesOf(rt, rules, n).Some?
    ensures id in CachesOf(rt, rules, n).value <==> exists j :: 0 <= j < n && rules[j].id == id
  {
    if n > 0 {
      CachedIds(rt, rules, n - 1, id);
      hide CacheOf;
    }
  }

  lemma {:induction false} CachedUnderItsId(rt: Runtime, rules: seq<Rule>, n: nat, j: nat)
    requires j < n <= |rules| && CachesOf(rt, rules, n).Some? && DistinctIds(rules)
    ensures rules[j].id in CachesOf(rt, rules, n).value
    ensures CacheOf(rt, rules[j]) == Some(CachesOf(rt, rules, n).value[rules[j].id])
  {
    hide CacheOf;
    if j < n - 1 {
      CachedUnderItsId(rt, rules, n - 1, j);
    }
  }

  lemma IdsOfPartsAreDistinct(rules: seq<Rule>, more: seq<Rule>)
    requires DistinctIds(rules + more)
    ensures DistinctIds(more)
    ensures forall i, j | 0 <= i < |rules| && 0 <= j < |more| :: rules[i].id != more[j].id
  {
    var all := rules + more;
    assert forall j | 0 <= j < |more| :: all[|rules| + j] == more[j];
    forall i, j | 0 <= i < j < |more| ensures more[i].id != more[j].id {
      assert all[|rules| + i].id != all[|rules| + j].id;
    }
    forall i, j | 0 <= i < |rules| && 0 <= j < |more| ensures rules[i].id != more[j].id {
      assert all[i].id != all[|rules| + j].id;
    }
  }

  lemma EarlierPatternsStay(compiled: CompiledRules, cache: CompiledRules, id: string)
    requires id !in cache
    ensures PatternsOf(compiled + cache, id) == PatternsOf(compiled, id)
  {}

  /** Loading uniform rules with new ids keeps the engine valid: from then on its matches are
      exactly the enabled rules that hold. */
  lemma LoadKeepsValid(rt: Runtime, rules: seq<Rule>, more: seq<Rule>, compiled: CompiledRules)
    requires FitsAll(rt, rules, compiled) && DistinctIds(rules + more)
    requires forall r | r in more :: Uniform(rt, Leaves(r.conditions))
    requires CachesOf(rt, more, |more|).Some?
    ensures FitsAll(rt, rules + more, compiled + CachesOf(rt, more, |more|).value)
  {
    var all, cache := rules + more, CachesOf(rt, more, |more|).value;
    IdsOfPartsAreDistinct(rules, more);
    hide CachesOf, CacheOf, DistinctIds, CacheFits, PatternsOf;
    forall r | r in all ensures CacheFits(rt, Leaves(r.conditions), PatternsOf(compiled + cache, r.id)) {
      if r in rules {
        EarlierRuleFits(rt, rules, more, compiled, r);
      } else {
        var j :| 0 <= j < |more| && more[j] == r;
        LoadedRuleFits(rt, more, compiled, j);
      }
    }
  }

  lemma EarlierRuleFits(rt: Runtime, rules: seq<Rule>, more: seq<Rule>, compiled: CompiledRules, r: Rule)
    requires FitsAll(rt, rules, compiled) && r in rules && CachesOf(rt, more, |more|).Some?
    requires forall i, j | 0 <= i < |rules| && 0 <= j < |more| :: rules[i].id != more[j].id
    ensures CacheFits(rt, Leaves(r.conditions), PatternsOf(compiled + CachesOf(rt, more, |more|).value, r.id))
  {
    hide CacheFits, CachesOf;
    CachedIds(rt, more, |more|, r.id);
    EarlierPatternsStay(compiled, CachesOf(rt, more, |more|).value, r.id);
    hide PatternsOf;
  }

  lemma LoadedRuleFits(rt: Runtime, more: seq<Rule>, compiled: CompiledRules, j: nat)
    requires j < |more| && CachesOf(rt, more, |more|).Some? && DistinctIds(more)
    requires Uniform(rt, Leaves(more[j].conditions))
    ensures CacheFits(rt, Leaves(more[j].conditions), PatternsOf(compiled + CachesOf(rt, more, |more|).value, more[j].id))
  {
    hide CacheFits, CachesOf, CacheOf, DistinctIds, Uniform;
    CachedUnderItsId(rt, more, |more|, j);
    OwnCacheFits(rt, more[j]);
  }

  lemma OwnCacheFits(rt: Runtime, r: Rule)
    requires Uniform(rt, Leaves(r.conditions)) && CacheOf(rt, r).Some?
    ensures CacheFits(rt, Leaves(r.conditions), CacheOf(rt, r).value)
  {
    hide Uniform, CacheFits, Cache, Leaves;
    CacheFitsIffUniform(rt, Leaves(r.conditions));
  }
}
