/** Layered configuration: the deep merge of nested dictionaries. */
module ConfigMerge {
  import opened Wrappers
  import opened Values

  function DeepCopy(v: Value): Value {
    match v
    case Dict(entries) => Dict(map k | k in entries :: DeepCopy(entries[k]))
    case List(items) => List(seq(|items|, i requires 0 <= i < |items| => items[i]))
    case _ => v
  }

  /** Two dictionaries are merged key by key; otherwise the override replaces the base. */
  function Merge(base: Value, over: Value): Value
    decreases over
  {
    if base.Dict? && over.Dict? then
      Dict(map k | k in base.entries.Keys + over.entries.Keys ::
             if k !in over.entries then base.entries[k]
             else if k !in base.entries then over.entries[k]
             else Merge(base.entries[k], over.entries[k]))
    else over
  }

  function MergeConfig(base: Config, over: Config): Config { Merge(Dict(base), Dict(over)).entries }

  /** Merging does not tell equal values apart. */
  lemma {:induction false} MergeKeepsSame(a: Value, b: Value, c: Value, d: Value)
    requires SameValue(a, b) && SameValue(c, d)
    ensures SameValue(Merge(a, c), Merge(b, d))
    decreases c
  {
    if a.Dict? && c.Dict? {
      forall k | k in Merge(a, c).entries ensures SameValue(Merge(a, c).entries[k], Merge(b, d).entries[k]) {
        if k in a.entries && k in c.entries {
          MergeKeepsSame(a.entries[k], b.entries[k], c.entries[k], d.entries[k]);
        }
      }
    }
  }

  lemma {:induction false} CopyIsEqual(v: Value)
    ensures DeepCopy(v) == v
  {
    if v.Dict? {
      forall k | k in v.entries ensures DeepCopy(v.entries[k]) == v.entries[k] {
        CopyIsEqual(v.entries[k]);
      }
    }
  }

  /** The merge of all override keys that are not in `rest`. */
  ghost function Merged(base: Config, over: Config, rest: set<string>): Config {
    map k | k in base.Keys + (over.Keys - rest) ::
      if k in over && k !in rest then (if k in base then Merge(base[k], over[k]) else over[k]) else base[k]
  }

  lemma MergedAll(base: Config, over: Config)
    ensures Merged(base, over, {}) == MergeConfig(base, over)
    ensures Merged(base, over, over.Keys) == base
  {}

  lemma MergedStep(base: Config, over: Config, rest: set<string>, k: string)
    requires k in rest && k in over
    ensures Merged(base, over, rest - {k}) ==
            Merged(base, over, rest)[k := if k in base then Merge(base[k], over[k]) else over[k]]
    ensures k in Merged(base, over, rest) <==> k in base
    ensures k in base ==> Merged(base, over, rest)[k] == base[k]
  {
  }

  method DeepMerge(base: Config, overrides: Config) returns (result: Config)
    ensures result == MergeConfig(base, overrides)
    decreases Dict(overrides)
  {
    hide Merged;
    CopyIsEqual(Dict(base));
    MergedAll(base, overrides);
    result := DeepCopy(Dict(base)).entries;
    var rest := overrides.Keys;
    while rest != {}
      invariant rest <= overrides.Keys
      invariant result == Merged(base, overrides, rest)
      decreases |rest|
    {
      var key :| key in rest;
      MergedStep(base, overrides, rest, key);
      rest := rest - {key};
      var value := overrides[key];
      if key in result && result[key].Dict? && value.Dict? {
        var merged := DeepMerge(result[key].entries, value.entries);
        result := result[key := Dict(merged)];
      } else {
        CopyIsEqual(value);
        result := result[key := DeepCopy(value)];
      }
    }
  }

  // ----- what a merge means, path by path -----

  /** The value at a path, if it is not a dictionary. */
  function Leaf(v: Value, path: seq<string>): Option<Value>
    decreases path
  {
    if path == [] then if v.Dict? then None else Some(v)
    else if v.Dict? && path[0] in v.entries then Leaf(v.entries[path[0]], path[1..])
    else None
  }

  /** Following the path never meets a dictionary that lacks the next key. */
  predicate SpeaksAbout(v: Value, path: seq<string>)
    decreases path
  {
    path == [] || !v.Dict? || (path[0] in v.entries && SpeaksAbout(v.entries[path[0]], path[1..]))
  }

  lemma {:induction false} SilentHasNoLeaf(v: Value, path: seq<string>)
    requires !SpeaksAbout(v, path)
    ensures Leaf(v, path) == None
    decreases path
  {
    if path[0] in v.entries {
      SilentHasNoLeaf(v.entries[path[0]], path[1..]);
    }
  }

  /** At every path the override decides wherever it says something, else the base. */
  lemma {:induction false} MergeIsLayering(a: Value, b: Value, path: seq<string>)
    ensures Leaf(Merge(a, b), path) ==
            if SpeaksAbout(b, path) then Leaf(b, path) else Leaf(a, path)
    decreases path
  {
    if path != [] && a.Dict? && b.Dict? && path[0] in a.entries && path[0] in b.entries {
      MergeIsLayering(a.entries[path[0]], b.entries[path[0]], path[1..]);
    } else if !SpeaksAbout(b, path) {
      SilentHasNoLeaf(b, path);
    }
  }

  // ----- laws -----

  lemma MergeIdentity(a: Config)
    ensures MergeConfig(a, map[]) == a && MergeConfig(map[], a) == a
  {}

  lemma {:induction false} MergeIdempotent(a: Value)
    ensures Merge(a, a) == a
  {
    if a.Dict? {
      forall k | k in a.entries ensures Merge(a.entries[k], a.entries[k]) == a.entries[k] {
        MergeIdempotent(a.entries[k]);
      }
      assert Merge(a, a).entries.Keys == a.entries.Keys;
    }
  }

  /** Applying the same override twice is applying it once. */
  lemma {:induction false} MergeAbsorbs(a: Value, b: Value)
    ensures Merge(Merge(a, b), b) == Merge(a, b)
    decreases b
  {
    if a.Dict? && b.Dict? {
      var m := Merge(a, b);
      forall k | k in b.entries ensures Merge(m.entries[k], b.entries[k]) == m.entries[k] {
        if k in a.entries {
          MergeAbsorbs(a.entries[k], b.entries[k]);
        } else {
          MergeIdempotent(b.entries[k]);
        }
      }
      assert Merge(m, b).entries.Keys == m.entries.Keys;
    } else {
      MergeIdempotent(b);
    }
  }

  /** The override names everything that the base names, at every level both have. */
  predicate Covers(over: Value, base: Value)
    decreases base
  {
    over.Dict? && base.Dict? ==>
      forall k | k in base.entries :: k in over.entries && Covers(over.entries[k], base.entries[k])
  }

  lemma {:induction false} CoversIffReplaces(base: Value, over: Value)
    ensures Covers(over, base) <==> Merge(base, over) == over
    decreases over
  {
    if base.Dict? && over.Dict? {
      var m := Merge(base, over);
      forall k | k in base.entries && k in over.entries
        ensures Covers(over.entries[k], base.entries[k]) <==> m.entries[k] == over.entries[k]
      {
        CoversIffReplaces(base.entries[k], over.entries[k]);
      }
      if Covers(over, base) {
        assert m.entries.Keys == over.entries.Keys;
      } else {
        var k :| k in base.entries && !(k in over.entries && Covers(over.entries[k], base.entries[k]));
        assert k in m.entries && (k in over.entries ==> m.entries[k] != over.entries[k]);
      }
    }
  }

  /** Where a middle layer puts a plain value between two dictionaries, the top one covers the
      bottom one. */
  predicate NoGap(a: Value, b: Value, c: Value)
    decreases c
  {
    a.Dict? && c.Dict? ==>
      if b.Dict? then
        forall k | k in a.entries && k in b.entries && k in c.entries :: NoGap(a.entries[k], b.entries[k], c.entries[k])
      else Covers(c, a)
  }

  lemma AssociativeAt(a: Value, b: Value, c: Value, k: string)
    requires a.Dict? && b.Dict? && c.Dict? && k in a.entries.Keys + b.entries.Keys + c.entries.Keys
    ensures k in Merge(Merge(a, b), c).entries && k in Merge(a, Merge(b, c)).entries
    ensures Merge(Merge(a, b), c).entries[k] == Merge(a, Merge(b, c)).entries[k]
       <==> (k in a.entries && k in b.entries && k in c.entries ==>
               Merge(Merge(a.entries[k], b.entries[k]), c.entries[k]) == Merge(a.entries[k], Merge(b.entries[k], c.entries[k])))
  {
  }

  /** Exactly when two steps of layering may be grouped either way. */
  lemma {:induction false} AssociativeIffNoGap(a: Value, b: Value, c: Value)
    ensures Merge(Merge(a, b), c) == Merge(a, Merge(b, c)) <==> NoGap(a, b, c)
    decreases c
  {
    if a.Dict? && b.Dict? && c.Dict? {
      var left, right := Merge(Merge(a, b), c), Merge(a, Merge(b, c));
      var keys := a.entries.Keys + b.entries.Keys + c.entries.Keys;
      assert left.entries.Keys == keys && right.entries.Keys == keys;
      forall k | k in keys
        ensures left.entries[k] == right.entries[k] <==>
                (k in a.entries && k in b.entries && k in c.entries ==> NoGap(a.entries[k], b.entries[k], c.entries[k]))
      {
        AssociativeAt(a, b, c, k);
        if k in a.entries && k in b.entries && k in c.entries {
          AssociativeIffNoGap(a.entries[k], b.entries[k], c.entries[k]);
        }
      }
      if !NoGap(a, b, c) {
        var k :| k in a.entries && k in b.entries && k in c.entries && !NoGap(a.entries[k], b.entries[k], c.entries[k]);
        assert left.entries[k] != right.entries[k];
      }
    } else if a.Dict? && c.Dict? {
      CoversIffReplaces(a, c);
    }
  }
}
