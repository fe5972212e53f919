/** What layering does to valid configurations, and the schemas for which it keeps them valid. */
module ConfigLayering {
  import opened Wrappers
  import opened Values
  import opened ConfigMerge
  import opened ConfigValidator

  ghost predicate Valid(config: Config, schema: Schema, path: string) {
    ConfigErrors(config, schema, path) == []
  }

  predicate FieldValid(config: Config, field: Field, path: string) {
    KeyErrors(Lookup(config, field.key), field.entry, PathTo(path, field.key)) == []
  }

  /** Valid means valid field by field. */
  lemma {:induction false} ValidIffAllFields(config: Config, schema: Schema, path: string)
    ensures Valid(config, schema, path) <==> forall i | 0 <= i < |schema| :: FieldValid(config, schema[i], path)
    decreases |schema|
  {
    hide KeyErrors;
    if schema != [] {
      var n := |schema| - 1;
      var front, last := ConfigErrors(config, schema[..n], path), KeyErrors(Lookup(config, schema[n].key), schema[n].entry, PathTo(path, schema[n].key));
      assert ConfigErrors(config, schema, path) == front + last;
      assert Valid(config, schema, path) <==> Valid(config, schema[..n], path) && FieldValid(config, schema[n], path);
      hide ConfigErrors, Valid, FieldValid;
      ValidIffAllFields(config, schema[..n], path);
      assert forall i | 0 <= i < n :: schema[..n][i] == schema[i];
    }
  }

  /** Every entry present in the overrides is valid for its schema field; of a section only the
      entries that are present count. */
  predicate ValidOverrides(over: Config, schema: Schema, path: string)
    decreases schema
  {
    forall i | 0 <= i < |schema| && schema[i].key in over ::
      var field, v := schema[i], over[schema[i].key];
      if field.entry.fields.Section? && v.Dict? then
        ValidOverrides(v.entries, field.entry.fields.schema, PathTo(path, field.key))
      else KeyErrors(v, field.entry, PathTo(path, field.key)) == []
  }

  // ----- schemas -----

  /** A schema is a dictionary: its keys are distinct, at every level. */
  predicate IsDictionary(schema: Schema)
    decreases schema
  {
    && (forall i, j | 0 <= i < j < |schema| :: schema[i].key != schema[j].key)
    && forall i | 0 <= i < |schema| && schema[i].entry.fields.Section? :: IsDictionary(schema[i].entry.fields.schema)
  }

  predicate TakesDicts(entry: Entry) { CheckType(Dict(map[]), entry.types) }

  /** Single values that may be dictionaries have no custom check. */
  predicate NoCustomDicts(schema: Schema)
    decreases schema
  {
    forall i | 0 <= i < |schema| ::
      var entry := schema[i].entry;
      if entry.fields.Section? then NoCustomDicts(entry.fields.schema)
      else TakesDicts(entry) ==> entry.custom == None
  }

  predicate Listed(v: Value, entry: Entry) {
    exists i :: 0 <= i < |entry.enumValues| && SameValue(v, entry.enumValues[i])
  }

  /** The merge of any two listed dictionaries is listed. */
  predicate ClosedEnum(entry: Entry) {
    TakesDicts(entry) ==>
      forall i, j | 0 <= i < |entry.enumValues| && 0 <= j < |entry.enumValues| ::
        entry.enumValues[i].Dict? && entry.enumValues[j].Dict? ==> Listed(Merge(entry.enumValues[i], entry.enumValues[j]), entry)
  }

  /** Everything in the schema may be missing, at every level. */
  predicate Skippable(schema: Schema)
    decreases schema
  {
    forall i | 0 <= i < |schema| ::
      var entry := schema[i].entry;
      Nullable(entry.types) && (entry.fields.Section? ==> Skippable(entry.fields.schema))
  }

  /** Enumerations of dictionaries are closed under merging, and a section that may be missing as a
      whole has nothing that may not be missing. */
  predicate Layers(schema: Schema)
    decreases schema, 0
  {
    forall i | 0 <= i < |schema| :: FieldLayers(schema[i].entry)
  }

  predicate FieldLayers(entry: Entry)
    decreases entry, 1
  {
    if entry.fields.Section? then
      Layers(entry.fields.schema) && (Nullable(entry.types) ==> Skippable(entry.fields.schema))
    else ClosedEnum(entry)
  }

  /** No single value that may be a dictionary is enumerated. */
  predicate NoDictEnums(schema: Schema)
    decreases schema
  {
    forall i | 0 <= i < |schema| ::
      var entry := schema[i].entry;
      if entry.fields.Section? then NoDictEnums(entry.fields.schema)
      else TakesDicts(entry) ==> entry.enumValues == []
  }

  // ----- one field of a merge -----

  lemma MergedLookup(base: Config, over: Config, k: string)
    ensures Lookup(MergeConfig(base, over), k) ==
            if k !in over then Lookup(base, k)
            else if k in base && base[k].Dict? && over[k].Dict? then Dict(MergeConfig(base[k].entries, over[k].entries))
            else over[k]
  {
    if k in base && k in over {
      assert MergeConfig(base, over)[k] == Merge(base[k], over[k]);
    }
  }

  /** Two dictionaries are one and the same to a type check. */
  lemma {:induction false} DictsCheckAlike(a: Config, b: Config, expected: TypeSpec)
    ensures CheckType(Dict(a), expected) == CheckType(Dict(b), expected)
  {
    if expected.OneOf? {
      forall i | 0 <= i < |expected.options|
        ensures CheckType(Dict(a), expected.options[i]) == CheckType(Dict(b), expected.options[i])
      {
        DictsCheckAlike(a, b, expected.options[i]);
      }
    }
  }

  /** A single value that is a dictionary is valid iff dictionaries are accepted and it is listed, when
      there is a list. */
  lemma DictLeafErrors(d: Config, entry: Entry, path: string)
    requires entry.fields.NoFields? && (TakesDicts(entry) ==> entry.custom == None)
    ensures KeyErrors(Dict(d), entry, path) == [] <==>
            TakesDicts(entry) && (entry.enumValues == [] || Listed(Dict(d), entry))
  {
    DictsCheckAlike(d, map[], entry.types);
    hide SameValue;
  }

  lemma ListedAs(v: Value, entry: Entry) returns (i: nat)
    requires Listed(v, entry)
    ensures i < |entry.enumValues| && SameValue(v, entry.enumValues[i]) && (v.Dict? ==> entry.enumValues[i].Dict?)
  {
    i :| i < |entry.enumValues| && SameValue(v, entry.enumValues[i]);
  }

  lemma SameIsListed(v: Value, w: Value, entry: Entry)
    requires SameValue(v, w) && Listed(w, entry)
    ensures Listed(v, entry)
  {
    var i := ListedAs(w, entry);
    SameIsTransitive(v, w, entry.enumValues[i]);
    hide SameValue;
  }

  /** In a closed enumeration it is enough that two dictionaries equal listed ones. */
  lemma MergeIsListed(a: Config, b: Config, entry: Entry)
    requires TakesDicts(entry) && ClosedEnum(entry) && Listed(Dict(a), entry) && Listed(Dict(b), entry)
    ensures Listed(Dict(MergeConfig(a, b)), entry)
  {
    assert Merge(Dict(a), Dict(b)) == Dict(MergeConfig(a, b));
    hide SameValue, Merge, MergeConfig, TakesDicts, Listed;
    var i := ListedAs(Dict(a), entry);
    var j := ListedAs(Dict(b), entry);
    MergeKeepsSame(Dict(a), entry.enumValues[i], Dict(b), entry.enumValues[j]);
    SameIsListed(Dict(MergeConfig(a, b)), Merge(entry.enumValues[i], entry.enumValues[j]), entry);
  }

  /** In a skippable schema what is valid as an override is valid as a whole. */
  lemma {:induction false} SkippableOverridesAreValid(over: Config, schema: Schema, path: string)
    requires Skippable(schema) && ValidOverrides(over, schema, path)
    ensures Valid(over, schema, path)
    decreases schema
  {
    forall i | 0 <= i < |schema| ensures FieldValid(over, schema[i], path) {
      var field := schema[i];
      if field.key in over && field.entry.fields.Section? && over[field.key].Dict? {
        SkippableOverridesAreValid(over[field.key].entries, field.entry.fields.schema, PathTo(path, field.key));
      }
    }
    ValidIffAllFields(over, schema, path);
  }

  lemma {:induction false} ValidIsValidOverrides(config: Config, schema: Schema, path: string)
    requires Valid(config, schema, path)
    ensures ValidOverrides(config, schema, path)
    decreases schema
  {
    ValidIffAllFields(config, schema, path);
    forall i | 0 <= i < |schema| && schema[i].key in config
      ensures var field, v := schema[i], config[schema[i].key];
              if field.entry.fields.Section? && v.Dict? then
                ValidOverrides(v.entries, field.entry.fields.schema, PathTo(path, field.key))
              else KeyErrors(v, field.entry, PathTo(path, field.key)) == []
    {
      var field, v := schema[i], config[schema[i].key];
      assert FieldValid(config, field, path);
      if field.entry.fields.Section? && v.Dict? {
        ValidIsValidOverrides(v.entries, field.entry.fields.schema, PathTo(path, field.key));
      }
    }
  }

  /** One field of the merge of a valid base. */
  lemma {:induction false} MergedField(base: Config, over: Config, schema: Schema, i: nat, path: string)
    requires i < |schema| && FieldValid(base, schema[i], path) && Layers(schema) && NoCustomDicts(schema)
    ensures ValidOverrides(over, [schema[i]], path) ==> FieldValid(MergeConfig(base, over), schema[i], path)
    ensures NoDictEnums(schema) && FieldValid(MergeConfig(base, over), schema[i], path)
            ==> ValidOverrides(over, [schema[i]], path)
    decreases schema, 0
  {
    var field := schema[i];
    var k, entry, fieldPath := field.key, field.entry, PathTo(path, field.key);
    assert [field][0] == field;
    MergedLookup(base, over, k);
    if k in over {
      if entry.fields.Section? && over[k].Dict? {
        var o, sub := over[k].entries, entry.fields.schema;
        if k in base && base[k].Dict? {
          MergedConfig(base[k].entries, o, sub, fieldPath);
        } else {
          // The base has no such section, so the override's section stands alone.
          assert Nullable(entry.types) && Skippable(sub);
          if ValidOverrides(o, sub, fieldPath) {
            SkippableOverridesAreValid(o, sub, fieldPath);
          }
          if Valid(o, sub, fieldPath) {
            ValidIsValidOverrides(o, sub, fieldPath);
          }
        }
      } else if k in base && base[k].Dict? && over[k].Dict? {
        DictLeafErrors(base[k].entries, entry, fieldPath);
        DictLeafErrors(over[k].entries, entry, fieldPath);
        DictLeafErrors(MergeConfig(base[k].entries, over[k].entries), entry, fieldPath);
        if Listed(base[k], entry) && Listed(over[k], entry) && TakesDicts(entry) {
          MergeIsListed(base[k].entries, over[k].entries, entry);
        }
      }
    }
  }

  lemma OverridesFieldByField(over: Config, schema: Schema, path: string)
    ensures ValidOverrides(over, schema, path) <==> forall i | 0 <= i < |schema| :: ValidOverrides(over, [schema[i]], path)
  {
    assert forall i | 0 <= i < |schema| :: [schema[i]][0] == schema[i];
  }

  lemma {:induction false} MergedConfig(base: Config, over: Config, schema: Schema, path: string)
    requires Valid(base, schema, path) && Layers(schema) && NoCustomDicts(schema)
    ensures ValidOverrides(over, schema, path) ==> Valid(MergeConfig(base, over), schema, path)
    ensures NoDictEnums(schema) && Valid(MergeConfig(base, over), schema, path) ==> ValidOverrides(over, schema, path)
    decreases schema, 1
  {
    var merged := MergeConfig(base, over);
    ValidIffAllFields(base, schema, path);
    ValidIffAllFields(merged, schema, path);
    OverridesFieldByField(over, schema, path);
    forall i | 0 <= i < |schema|
      ensures ValidOverrides(over, [schema[i]], path) ==> FieldValid(merged, schema[i], path)
      ensures NoDictEnums(schema) && FieldValid(merged, schema[i], path) ==> ValidOverrides(over, [schema[i]], path)
    {
      MergedField(base, over, schema, i, path);
    }
  }

  /** Over a valid base a valid override gives a valid merge; where no dictionaries are enumerated an
      invalid override gives an invalid one. */
  lemma MergeValidIffOverridesValid(base: Config, over: Config, schema: Schema, path: string)
    requires Valid(base, schema, path) && Layers(schema) && NoCustomDicts(schema)
    ensures ValidOverrides(over, schema, path) ==> Valid(MergeConfig(base, over), schema, path)
    ensures NoDictEnums(schema) ==> (Valid(MergeConfig(base, over), schema, path) <==> ValidOverrides(over, schema, path))
  {
    MergedConfig(base, over, schema, path);
  }

  /** The three layers of loading: valid defaults under a valid file and a valid environment. */
  lemma LoadedConfigIsValid(defaults: Config, file: Config, env: Config, schema: Schema, path: string)
    requires Valid(defaults, schema, path) && Layers(schema) && NoCustomDicts(schema)
    requires ValidOverrides(file, schema, path) && ValidOverrides(env, schema, path)
    ensures Valid(MergeConfig(MergeConfig(defaults, file), env), schema, path)
  {
    MergedConfig(defaults, file, schema, path);
    MergedConfig(MergeConfig(defaults, file), env, schema, path);
  }

  // ----- other schemas do not keep layers valid -----

  lemma OneOverride(k: string, v: Value, schema: Schema, i: nat, path: string)
    requires IsDictionary(schema) && i < |schema| && schema[i].key == k
    requires ValidOverrides(map[k := v], [schema[i]], path)
    ensures ValidOverrides(map[k := v], schema, path)
  {
    assert [schema[i]][0] == schema[i];
  }

  lemma Replaced(good: Config, v: Value, schema: Schema, i: nat, path: string)
    requires IsDictionary(schema) && i < |schema| && Valid(good, schema, path)
    requires FieldValid(good[schema[i].key := v], schema[i], path)
    ensures Valid(good[schema[i].key := v], schema, path)
  {
    var next := good[schema[i].key := v];
    ValidIffAllFields(good, schema, path);
    ValidIffAllFields(next, schema, path);
    hide KeyErrors, ConfigErrors, Valid;
    forall j | 0 <= j < |schema| ensures FieldValid(next, schema[j], path) {
      assert FieldValid(good, schema[j], path);
      if j != i {
        assert schema[j].key != schema[i].key && Lookup(next, schema[j].key) == Lookup(good, schema[j].key);
      }
    }
  }

  lemma FieldFails(config: Config, schema: Schema, i: nat, path: string)
    requires i < |schema| && !FieldValid(config, schema[i], path)
    ensures !Valid(config, schema, path)
  {
    ValidIffAllFields(config, schema, path);
  }

  /** A schema that is not skippable accepts an override that cannot stand alone. */
  lemma {:induction false} NotSkippable(schema: Schema, path: string) returns (over: Config)
    requires IsDictionary(schema) && !Skippable(schema)
    ensures ValidOverrides(over, schema, path) && !Valid(over, schema, path)
    decreases schema
  {
    var i :| 0 <= i < |schema| && !(Nullable(schema[i].entry.types)
              && (schema[i].entry.fields.Section? ==> Skippable(schema[i].entry.fields.schema)));
    var field := schema[i];
    if Nullable(field.entry.types) {
      var inner := NotSkippable(field.entry.fields.schema, PathTo(path, field.key));
      over := map[field.key := Dict(inner)];
      assert [field][0] == field;
      OneOverride(field.key, Dict(inner), schema, i, path);
    } else {
      over := map[];
    }
    FieldFails(over, schema, i, path);
  }

  /** A valid base and a valid override whose merge is invalid. */
  ghost predicate Breaks(base: Config, over: Config, schema: Schema, path: string) {
    Valid(base, schema, path) && ValidOverrides(over, schema, path) && !Valid(MergeConfig(base, over), schema, path)
  }

  /** Values for one field break the whole schema. */
  lemma FieldBreaks(good: Config, b: Value, o: Value, schema: Schema, i: nat, path: string)
    requires IsDictionary(schema) && i < |schema| && Valid(good, schema, path)
    requires FieldValid(map[schema[i].key := b], schema[i], path)
    requires ValidOverrides(map[schema[i].key := o], [schema[i]], path)
    requires !FieldValid(map[schema[i].key := if b.Dict? && o.Dict? then Dict(MergeConfig(b.entries, o.entries)) else o], schema[i], path)
    ensures Breaks(good[schema[i].key := b], map[schema[i].key := o], schema, path)
  {
    var k := schema[i].key;
    assert Lookup(good[k := b], k) == Lookup(map[k := b], k);
    Replaced(good, b, schema, i, path);
    OneOverride(k, o, schema, i, path);
    MergedLookup(good[k := b], map[k := o], k);
    FieldFails(MergeConfig(good[k := b], map[k := o]), schema, i, path);
  }

  lemma ListedPairBreaks(good: Config, b: Config, o: Config, schema: Schema, i: nat, path: string)
    requires IsDictionary(schema) && i < |schema| && Valid(good, schema, path)
    requires schema[i].entry.fields.NoFields? && TakesDicts(schema[i].entry) && schema[i].entry.custom == None
    requires Listed(Dict(b), schema[i].entry) && Listed(Dict(o), schema[i].entry)
    requires !Listed(Dict(MergeConfig(b, o)), schema[i].entry)
    ensures Breaks(good[schema[i].key := Dict(b)], map[schema[i].key := Dict(o)], schema, path)
  {
    var entry, fieldPath := schema[i].entry, PathTo(path, schema[i].key);
    DictLeafErrors(b, entry, fieldPath);
    DictLeafErrors(o, entry, fieldPath);
    DictLeafErrors(MergeConfig(b, o), entry, fieldPath);
    assert entry.enumValues != [];
    assert [schema[i]][0] == schema[i];
    hide Listed, MergeConfig, KeyErrors, Breaks, Valid, IsDictionary, TakesDicts;
    FieldBreaks(good, Dict(b), Dict(o), schema, i, path);
  }

  lemma OpenEnumBreaks(good: Config, schema: Schema, i: nat, path: string) returns (base: Config, over: Config)
    requires IsDictionary(schema) && NoCustomDicts(schema) && i < |schema| && Valid(good, schema, path)
    requires schema[i].entry.fields.NoFields? && !ClosedEnum(schema[i].entry)
    ensures Breaks(base, over, schema, path)
  {
    var field := schema[i];
    var entry := field.entry;
    var x, y :| 0 <= x < |entry.enumValues| && 0 <= y < |entry.enumValues|
      && entry.enumValues[x].Dict? && entry.enumValues[y].Dict?
      && !Listed(Merge(entry.enumValues[x], entry.enumValues[y]), entry);
    var b, o := entry.enumValues[x], entry.enumValues[y];
    SameIsReflexive(b);
    SameIsReflexive(o);
    hide Breaks, Valid, SameValue;
    ListedPairBreaks(good, b.entries, o.entries, schema, i, path);
    base, over := good[field.key := b], map[field.key := o];
  }

  lemma LooseSectionBreaks(good: Config, schema: Schema, i: nat, path: string) returns (base: Config, over: Config)
    requires IsDictionary(schema) && i < |schema| && Valid(good, schema, path)
    requires schema[i].entry.fields.Section? && Nullable(schema[i].entry.types) && !Skippable(schema[i].entry.fields.schema)
    ensures Breaks(base, over, schema, path)
  {
    var field := schema[i];
    var inner := NotSkippable(field.entry.fields.schema, PathTo(path, field.key));
    assert [field][0] == field;
    FieldBreaks(good, Null, Dict(inner), schema, i, path);
    base, over := good[field.key := Null], map[field.key := Dict(inner)];
  }

  /** Inside a section that layers in itself or not at all. */
  lemma SectionBreaks(good: Config, b: Config, o: Config, schema: Schema, i: nat, path: string)
    requires IsDictionary(schema) && i < |schema| && Valid(good, schema, path) && schema[i].entry.fields.Section?
    requires Breaks(b, o, schema[i].entry.fields.schema, PathTo(path, schema[i].key))
    ensures Breaks(good[schema[i].key := Dict(b)], map[schema[i].key := Dict(o)], schema, path)
  {
    var field, k := schema[i], schema[i].key;
    assert FieldValid(map[k := Dict(b)], field, path) && !FieldValid(map[k := Dict(MergeConfig(b, o))], field, path);
    assert [field][0] == field && ValidOverrides(map[k := Dict(o)], [field], path);
    hide MergeConfig, IsDictionary, FieldValid, ValidOverrides, Valid, Breaks;
    FieldBreaks(good, Dict(b), Dict(o), schema, i, path);
  }

  /** A valid configuration of one section. */
  lemma ValidSection(good: Config, schema: Schema, i: nat, path: string) returns (inner: Config)
    requires i < |schema| && Valid(good, schema, path) && schema[i].entry.fields.Section?
    requires Nullable(schema[i].entry.types) ==> Skippable(schema[i].entry.fields.schema)
    ensures Valid(inner, schema[i].entry.fields.schema, PathTo(path, schema[i].key))
  {
    ValidIffAllFields(good, schema, path);
    assert FieldValid(good, schema[i], path);
    var v := Lookup(good, schema[i].key);
    if v.Dict? {
      inner := v.entries;
    } else {
      inner := map[];
      SkippableOverridesAreValid(inner, schema[i].entry.fields.schema, PathTo(path, schema[i].key));
    }
  }

  lemma {:induction false} WithoutLayersBreaks(good: Config, schema: Schema, path: string) returns (base: Config, over: Config)
    requires IsDictionary(schema) && NoCustomDicts(schema) && Valid(good, schema, path) && !Layers(schema)
    ensures Breaks(base, over, schema, path)
    decreases schema
  {
    hide Valid, Breaks, ClosedEnum, Skippable;
    var i :| 0 <= i < |schema| && !FieldLayers(schema[i].entry);
    var field := schema[i];
    if field.entry.fields.NoFields? {
      base, over := OpenEnumBreaks(good, schema, i, path);
    } else if Nullable(field.entry.types) && !Skippable(field.entry.fields.schema) {
      base, over := LooseSectionBreaks(good, schema, i, path);
    } else {
      var inner := ValidSection(good, schema, i, path);
      var b, o := WithoutLayersBreaks(inner, field.entry.fields.schema, PathTo(path, field.key));
      SectionBreaks(good, b, o, schema, i, path);
      base, over := good[field.key := Dict(b)], map[field.key := Dict(o)];
    }
  }

  /** Layering keeps every valid configuration valid. */
  ghost predicate KeepsValid(schema: Schema, path: string) {
    forall base, over | Valid(base, schema, path) && ValidOverrides(over, schema, path) ::
      Valid(MergeConfig(base, over), schema, path)
  }

  /** Exactly the schemas for which merging keeps validity, among those that any configuration meets. */
  lemma KeepsValidIffLayers(schema: Schema, path: string)
    requires IsDictionary(schema) && NoCustomDicts(schema)
    ensures KeepsValid(schema, path) <==> Layers(schema) || !exists good :: Valid(good, schema, path)
  {
    if Layers(schema) {
      forall base, over | Valid(base, schema, path) && ValidOverrides(over, schema, path)
        ensures Valid(MergeConfig(base, over), schema, path)
      {
        MergedConfig(base, over, schema, path);
      }
    } else if good :| Valid(good, schema, path) {
      var base, over := WithoutLayersBreaks(good, schema, path);
    }
  }

  function Leaf(types: TypeSpec, enumValues: seq<Value>): Entry {
    Entry(types, NoFields, enumValues, None, None, 0, None, None)
  }

  /** Two dictionaries are listed, their merge is not. */
  lemma EnumeratedDictsDoNotLayer()
    ensures var one, two := Dict(map["a" := Int(1)]), Dict(map["b" := Int(2)]);
            Breaks(map["k" := one], map["k" := two], [Field("k", Leaf(Exactly(TDict), [one, two]))], "")
  {
    var one, two := map["a" := Int(1)], map["b" := Int(2)];
    var entry := Leaf(Exactly(TDict), [Dict(one), Dict(two)]);
    UnionIsNotListed(one, two, entry);
    assert TakesDicts(entry);
    hide *;
    PairBreaksOneField(one, two, entry);
  }

  lemma PairBreaksOneField(one: Config, two: Config, entry: Entry)
    requires entry.fields.NoFields? && TakesDicts(entry) && entry.custom == None
    requires Listed(Dict(one), entry) && Listed(Dict(two), entry) && !Listed(Dict(MergeConfig(one, two)), entry)
    ensures Breaks(map["k" := Dict(one)], map["k" := Dict(two)], [Field("k", entry)], "")
  {
    var schema := [Field("k", entry)];
    assert IsDictionary(schema) && schema[0].key == "k" && PathTo("", "k") == "k" && [schema[0]] == schema;
    hide Listed, MergeConfig, IsDictionary, TakesDicts, Breaks;
    DictLeafErrors(one, entry, "k");
    hide Valid, KeyErrors;
    assert FieldValid(map["k" := Dict(one)], schema[0], "");
    hide FieldValid;
    OneFieldIsValid(map["k" := Dict(one)], schema[0], "");
    ListedPairBreaks(map["k" := Dict(one)], one, two, schema, 0, "");
    assert map["k" := Dict(one)]["k" := Dict(one)] == map["k" := Dict(one)];
  }

  lemma UnionIsNotListed(one: Config, two: Config, entry: Entry)
    requires one == map["a" := Int(1)] && two == map["b" := Int(2)] && entry.enumValues == [Dict(one), Dict(two)]
    ensures Listed(Dict(one), entry) && Listed(Dict(two), entry) && !Listed(Dict(MergeConfig(one, two)), entry)
  {
    var both := MergeConfig(one, two);
    assert entry.enumValues[0] == Dict(one) && entry.enumValues[1] == Dict(two);
    assert "a" in both && "b" in both && "b" !in one && "a" !in two;
    SameIsReflexive(Dict(one));
    SameIsReflexive(Dict(two));
  }

  lemma OneFieldIsValid(config: Config, field: Field, path: string)
    requires FieldValid(config, field, path)
    ensures Valid(config, [field], path)
  {
    ValidIffAllFields(config, [field], path);
  }

  /** A section that may be missing holds a field that may not: the base has no section, and an
      override that names the section without the field is valid as an override. */
  lemma NullableSectionsDoNotLayer()
    ensures var section := Entry(OneOf([Exactly(TDict), Exactly(TNull)]), Section([Field("x", Leaf(Exactly(TInt), []))]),
                                 [], None, None, 0, None, None);
            Breaks(map[], map["s" := Dict(map[])], [Field("s", section)], "")
  {
    var inner := [Field("x", Leaf(Exactly(TInt), []))];
    var section := Entry(OneOf([Exactly(TDict), Exactly(TNull)]), Section(inner), [], None, None, 0, None, None);
    var schema, over := [Field("s", section)], map["s" := Dict(map[])];
    assert section.types.options[1] == Exactly(TNull);
    OneFieldIsValid(map[], schema[0], "");
    assert [schema[0]] == schema;
    MergedLookup(map[], over, "s");
    FieldFails(map[], inner, 0, "s");
    assert PathTo("", "s") == "s" && !Valid(map[], inner, "s");
    FieldFails(MergeConfig(map[], over), schema, 0, "");
  }
}
