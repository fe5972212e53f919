/** The dynamically typed values of configurations and events. */
module Values {

  datatype Value =
    | Null
    | Bool(b: bool)
    | Int(i: int)
    | Float(r: real)
    | Str(s: string)
    | List(items: seq<Value>)
    | Dict(entries: Config)

  type Config = map<string, Value>

  /** Numbers as the language sees them: booleans are among them. */
  predicate Numeric(v: Value) { v.Int? || v.Float? || v.Bool? }

  function Number(v: Value): real
    requires Numeric(v)
  {
    match v
    case Int(i) => i as real
    case Float(r) => r
    case Bool(b) => if b then 1.0 else 0.0
  }

  /** Equality as the language sees it: numbers of different types may be equal, at every depth. */
  predicate SameValue(a: Value, b: Value) {
    if Numeric(a) && Numeric(b) then Number(a) == Number(b)
    else if a.List? && b.List? then
      |a.items| == |b.items| && forall i | 0 <= i < |a.items| :: SameValue(a.items[i], b.items[i])
    else if a.Dict? && b.Dict? then
      a.entries.Keys == b.entries.Keys && forall k | k in a.entries :: SameValue(a.entries[k], b.entries[k])
    else a == b
  }

  lemma {:induction false} SameIsReflexive(a: Value)
    ensures SameValue(a, a)
  {
    if a.List? {
      forall i | 0 <= i < |a.items| ensures SameValue(a.items[i], a.items[i]) { SameIsReflexive(a.items[i]); }
    } else if a.Dict? {
      forall k | k in a.entries ensures SameValue(a.entries[k], a.entries[k]) { SameIsReflexive(a.entries[k]); }
    }
  }

  lemma {:induction false} SameIsTransitive(a: Value, b: Value, c: Value)
    requires SameValue(a, b) && SameValue(b, c)
    ensures SameValue(a, c)
  {
    if a.List? && c.List? {
      forall i | 0 <= i < |a.items| ensures SameValue(a.items[i], c.items[i]) {
        SameIsTransitive(a.items[i], b.items[i], c.items[i]);
      }
    } else if a.Dict? && c.Dict? {
      forall k | k in a.entries ensures SameValue(a.entries[k], c.entries[k]) {
        SameIsTransitive(a.entries[k], b.entries[k], c.entries[k]);
      }
    }
  }

  predicate Truthy(v: Value) {
    match v
    case Null => false
    case Bool(b) => b
    case Int(i) => i != 0
    case Float(r) => r != 0.0
    case Str(s) => s != ""
    case List(items) => items != []
    case Dict(entries) => entries != map[]
  }

  /** The values that count as false. */
  lemma FalsyValues(v: Value)
    ensures !Truthy(v) <==> v in [Null, Bool(false), Int(0), Float(0.0), Str(""), List([]), Dict(map[])]
  {}

  /** Equality of simple values: true is the number one and false is zero, a whole number equals itself as a
      fraction, and a text or null equals nothing else. */
  lemma SimpleValues(i: int, j: int, b: bool, x: real, s: string, v: Value)
    ensures SameValue(Int(i), Int(j)) <==> i == j
    ensures SameValue(Int(i), Float(x)) <==> x == i as real
    ensures SameValue(Bool(b), Int(i)) <==> (b && i == 1) || (!b && i == 0)
    ensures SameValue(Str(s), v) <==> v == Str(s)
    ensures SameValue(Null, v) <==> v == Null
  {}

  /** What the rule engine says about an event and the correlation engine reads. */
  datatype RuleMatch = RuleMatch(
    ruleId: string, ruleName: string, eventId: Value, correlationId: string,
    confidence: int, severity: int, threatScore: int, evidence: string)
}
