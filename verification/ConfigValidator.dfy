/** Checking a configuration against a schema. */
module ConfigValidator {
  import opened Wrappers
  import opened Values
  import opened ConfigMerge

  datatype Ty = TStr | TInt | TBool | TFloat | TList | TDict | TNull

  /** A type, several types to choose from, or nothing said. */
  datatype TypeSpec = Unspecified | Exactly(t: Ty) | OneOf(options: seq<TypeSpec>)

  datatype Problem =
    Missing | NotASection | NullValue | WrongType | NotInEnum | OutOfRange | TooFewItems | TooManyItems
    | WrongItemType(i: nat) | Custom(message: string)

  datatype Error = Error(path: string, problem: Problem)

  /** A schema entry; `fields` makes it a section, everything else is for single values. */
  datatype Entry = Entry(
    types: TypeSpec, fields: SubFields, enumValues: seq<Value>, range: Option<(real, real)>,
    itemType: Option<TypeSpec>, minLength: int, maxLength: Option<int>, custom: Option<(Value, string) -> seq<Error>>)

  datatype SubFields = NoFields | Section(schema: Schema)

  datatype Field = Field(key: string, entry: Entry)

  /** A dictionary of entries in its order. */
  type Schema = seq<Field>

  predicate CheckType(v: Value, expected: TypeSpec)
    decreases expected
  {
    match expected
    case Unspecified => true
    case OneOf(options) => exists i :: 0 <= i < |options| && CheckType(v, options[i])
    case Exactly(TStr) => v.Str?
    case Exactly(TInt) => v.Int?
    case Exactly(TBool) => v.Bool?
    // Booleans are integers to the float check.
    case Exactly(TFloat) => v.Int? || v.Float? || v.Bool?
    case Exactly(TList) => v.List?
    case Exactly(TDict) => v.Dict?
    case Exactly(TNull) => v.Null?
  }

  predicate Nullable(expected: TypeSpec) {
    expected.OneOf? && Exactly(TNull) in expected.options
  }

  function ItemErrors(items: seq<Value>, n: nat, itemType: TypeSpec, path: string): seq<Error>
    requires n <= |items|
  {
    if n == 0 then []
    else ItemErrors(items, n - 1, itemType, path)
         + if CheckType(items[n - 1], itemType) then [] else [Error(path, WrongItemType(n - 1))]
  }

  function EnumErrors(v: Value, entry: Entry, path: string): seq<Error> {
    if entry.enumValues != [] && !(exists i :: 0 <= i < |entry.enumValues| && SameValue(v, entry.enumValues[i]))
    then [Error(path, NotInEnum)] else []
  }

  function RangeErrors(v: Value, entry: Entry, path: string): seq<Error> {
    if entry.range.Some? && Numeric(v) && !(entry.range.value.0 <= Number(v) <= entry.range.value.1)
    then [Error(path, OutOfRange)] else []
  }

  function ListErrors(v: Value, entry: Entry, path: string): seq<Error> {
    if entry.itemType.Some? && v.List? then
      (if |v.items| < entry.minLength then [Error(path, TooFewItems)] else [])
      + (if entry.maxLength.Some? && |v.items| > entry.maxLength.value then [Error(path, TooManyItems)] else [])
      + ItemErrors(v.items, |v.items|, entry.itemType.value, path)
    else []
  }

  function CustomErrors(v: Value, entry: Entry, path: string): seq<Error> {
    if entry.custom.Some? then entry.custom.value(v, path) else []
  }

  function FieldErrors(v: Value, entry: Entry, path: string): seq<Error> {
    if v.Null? then
      if Nullable(entry.types) then [] else [Error(path, NullValue)]
    else if !CheckType(v, entry.types) then
      [Error(path, WrongType)]
    else
      EnumErrors(v, entry, path) + RangeErrors(v, entry, path) + ListErrors(v, entry, path) + CustomErrors(v, entry, path)
  }

  function Lookup(config: Config, key: string): Value {
    if key in config then config[key] else Null
  }

  function PathTo(path: string, key: string): string {
    if path == "" then key else path + "." + key
  }

  /** What is wrong with the value of one schema field. */
  function KeyErrors(v: Value, entry: Entry, path: string): seq<Error>
    decreases entry, 1
  {
    if v.Null? && entry.types != Exactly(TDict) then
      if Nullable(entry.types) then [] else [Error(path, Missing)]
    else if entry.fields.Section? then
      if v.Dict? then ConfigErrors(v.entries, entry.fields.schema, path) else [Error(path, NotASection)]
    else FieldErrors(v, entry, path)
  }

  function ConfigErrors(config: Config, schema: Schema, path: string): seq<Error>
    decreases schema, 0
  {
    if schema == [] then []
    else
      var last := schema[|schema| - 1];
      ConfigErrors(config, schema[..|schema| - 1], path)
      + KeyErrors(Lookup(config, last.key), last.entry, PathTo(path, last.key))
  }

  // ----- what is accepted -----

  /** The types that a value has; whole numbers and booleans pass for floats. */
  function TypesOf(v: Value): set<Ty> {
    match v
    case Null => {TNull}
    case Bool(_) => {TBool, TFloat}
    case Int(_) => {TInt, TFloat}
    case Float(_) => {TFloat}
    case Str(_) => {TStr}
    case List(_) => {TList}
    case Dict(_) => {TDict}
  }

  predicate HasType(v: Value, types: TypeSpec) {
    match types
    case Unspecified => true
    case Exactly(t) => t in TypesOf(v)
    case OneOf(options) => exists i :: 0 <= i < |options| && HasType(v, options[i])
  }

  lemma {:induction false} CheckedTypesAreHad(v: Value, types: TypeSpec)
    ensures CheckType(v, types) <==> HasType(v, types)
  {
    if types.OneOf? {
      forall i | 0 <= i < |types.options| ensures CheckType(v, types.options[i]) <==> HasType(v, types.options[i]) {
        CheckedTypesAreHad(v, types.options[i]);
      }
    }
  }

  /** Null is one of the types. */
  predicate TakesNull(types: TypeSpec) {
    types.OneOf? && exists i :: 0 <= i < |types.options| && types.options[i] == Exactly(TNull)
  }

  predicate InEnumeration(v: Value, entry: Entry) {
    entry.enumValues == [] || exists i :: 0 <= i < |entry.enumValues| && SameValue(v, entry.enumValues[i])
  }

  /** No bound on numbers is passed; a boolean counts as 0 or 1. */
  predicate WithinRange(v: Value, entry: Entry) {
    entry.range.None? ||
    var (low, high) := entry.range.value;
    match v
    case Int(i) => low <= i as real && i as real <= high
    case Float(r) => low <= r && r <= high
    case Bool(b) => low <= (if b then 1.0 else 0.0) && (if b then 1.0 else 0.0) <= high
    case _ => true
  }

  predicate LongEnough(v: Value, entry: Entry) {
    v.List? && entry.itemType.Some? ==> entry.minLength <= |v.items|
  }

  predicate ShortEnough(v: Value, entry: Entry) {
    v.List? && entry.itemType.Some? && entry.maxLength.Some? ==> |v.items| <= entry.maxLength.value
  }

  predicate ItemHasType(v: Value, entry: Entry, i: nat) {
    v.List? && entry.itemType.Some? && i < |v.items| ==> HasType(v.items[i], entry.itemType.value)
  }

  predicate ItemsHaveType(v: Value, entry: Entry) {
    v.List? ==> forall i: nat | i < |v.items| :: ItemHasType(v, entry, i)
  }

  /** Null if null is among the types; anything else that has one of the types, is listed where there is a
      list, and keeps all bounds, with every item of the item type and a custom check that is silent. */
  predicate Accepts(v: Value, entry: Entry, path: string) {
    if v == Null then TakesNull(entry.types)
    else
      && HasType(v, entry.types) && InEnumeration(v, entry) && WithinRange(v, entry)
      && LongEnough(v, entry) && ShortEnough(v, entry) && ItemsHaveType(v, entry)
      && (entry.custom.Some? ==> entry.custom.value(v, path) == [])
  }

  /** The value that a configuration holds for a field; a missing one counts as null. */
  function Held(config: Config, key: string): Value { if key in config then config[key] else Null }

  /** Every field of the schema has an acceptable value: a section, unless it may be null, is a dictionary
      that is acceptable in turn. */
  predicate AcceptsConfig(config: Config, schema: Schema, path: string)
    decreases schema
  {
    forall i | 0 <= i < |schema| :: AcceptsField(config, schema[i], path)
  }

  /** One complaint for each of the first items that has not the item type, and no other. */
  ghost predicate ReportsItems(errors: seq<Error>, v: Value, entry: Entry, n: nat, path: string) {
    && (forall i: nat :: Error(path, WrongItemType(i)) in errors <==> i < n && !ItemHasType(v, entry, i))
    && (forall e | e in errors :: e.path == path && e.problem.WrongItemType?)
  }

  lemma {:induction false} ItemComplaints(v: Value, entry: Entry, n: nat, path: string)
    requires v.List? && entry.itemType.Some? && n <= |v.items|
    ensures ReportsItems(ItemErrors(v.items, n, entry.itemType.value, path), v, entry, n, path)
  {
    if n > 0 {
      hide ReportsItems;
      ItemComplaints(v, entry, n - 1, path);
      OneMoreItem(v, entry, n, path);
      OneMoreReport(ItemErrors(v.items, n - 1, entry.itemType.value, path), v, entry, n, path);
    }
  }

  lemma OneMoreReport(errors: seq<Error>, v: Value, entry: Entry, n: nat, path: string)
    requires n > 0 && ReportsItems(errors, v, entry, n - 1, path)
    ensures ReportsItems(errors + if ItemHasType(v, entry, n - 1) then [] else [Error(path, WrongItemType(n - 1))], v, entry, n, path)
  {
    hide ItemHasType;
  }

  lemma {:induction false} ItemsSilent(v: Value, entry: Entry, n: nat, path: string)
    requires v.List? && entry.itemType.Some? && n <= |v.items|
    ensures ItemErrors(v.items, n, entry.itemType.value, path) == [] <==> forall i: nat | i < n :: ItemHasType(v, entry, i)
  {
    if n > 0 {
      ItemsSilent(v, entry, n - 1, path);
      OneMoreItem(v, entry, n, path);
      hide ItemErrors, ItemHasType;
    }
  }

  lemma OneMoreItem(v: Value, entry: Entry, n: nat, path: string)
    requires v.List? && entry.itemType.Some? && 0 < n <= |v.items|
    ensures ItemErrors(v.items, n, entry.itemType.value, path) ==
            ItemErrors(v.items, n - 1, entry.itemType.value, path)
            + if ItemHasType(v, entry, n - 1) then [] else [Error(path, WrongItemType(n - 1))]
  {
    CheckedTypesAreHad(v.items[n - 1], entry.itemType.value);
    hide CheckType, HasType;
  }

  lemma EnumComplaint(v: Value, entry: Entry, path: string)
    ensures EnumErrors(v, entry, path) == if InEnumeration(v, entry) then [] else [Error(path, NotInEnum)]
  {
    hide SameValue;
  }

  lemma RangeComplaint(v: Value, entry: Entry, path: string)
    ensures RangeErrors(v, entry, path) == if WithinRange(v, entry) then [] else [Error(path, OutOfRange)]
  {}

  lemma ListComplaints(v: Value, entry: Entry, path: string)
    ensures var errors := ListErrors(v, entry, path);
      && (forall e | e in errors :: e.path == path && !(e.problem in {NullValue, WrongType, NotInEnum, OutOfRange}))
      && (Error(path, TooFewItems) in errors <==> !LongEnough(v, entry))
      && (Error(path, TooManyItems) in errors <==> !ShortEnough(v, entry))
      && (forall i: nat :: Error(path, WrongItemType(i)) in errors <==> !ItemHasType(v, entry, i))
  {
    if v.List? && entry.itemType.Some? {
      ItemComplaints(v, entry, |v.items|, path);
    }
    hide ItemErrors, HasType;
  }

  /** Which complaint stands for which failure, the custom check aside. */
  lemma ComplaintsAreFailures(v: Value, entry: Entry, path: string)
    requires entry.custom == None
    ensures var errors := FieldErrors(v, entry, path);
            var typed := v != Null && HasType(v, entry.types);
      && (Error(path, NullValue) in errors <==> v == Null && !TakesNull(entry.types))
      && (Error(path, WrongType) in errors <==> v != Null && !HasType(v, entry.types))
      && (Error(path, NotInEnum) in errors <==> typed && !InEnumeration(v, entry))
      && (Error(path, OutOfRange) in errors <==> typed && !WithinRange(v, entry))
      && (Error(path, TooFewItems) in errors <==> typed && !LongEnough(v, entry))
      && (Error(path, TooManyItems) in errors <==> typed && !ShortEnough(v, entry))
      && (forall i: nat :: Error(path, WrongItemType(i)) in errors <==> typed && !ItemHasType(v, entry, i))
      && (forall e | e in errors :: e.path == path)
  {
    CheckedTypesAreHad(v, entry.types);
    EnumComplaint(v, entry, path);
    RangeComplaint(v, entry, path);
    ListComplaints(v, entry, path);
    hide CheckType, HasType, EnumErrors, RangeErrors, ListErrors, InEnumeration, WithinRange, LongEnough, ShortEnough, ItemHasType;
  }

  lemma ListSilent(v: Value, entry: Entry, path: string)
    ensures ListErrors(v, entry, path) == [] <==> LongEnough(v, entry) && ShortEnough(v, entry) && ItemsHaveType(v, entry)
  {
    if v.List? && entry.itemType.Some? {
      ItemsSilent(v, entry, |v.items|, path);
    }
    hide ItemErrors, HasType;
  }

  lemma AcceptedIffSilent(v: Value, entry: Entry, path: string)
    ensures FieldErrors(v, entry, path) == [] <==> Accepts(v, entry, path)
  {
    CheckedTypesAreHad(v, entry.types);
    EnumComplaint(v, entry, path);
    RangeComplaint(v, entry, path);
    ListSilent(v, entry, path);
    hide CheckType, HasType, EnumErrors, RangeErrors, ListErrors, InEnumeration, WithinRange, LongEnough, ShortEnough, ItemsHaveType;
  }

  /** The value of one field is acceptable. */
  predicate AcceptsField(config: Config, field: Field, path: string)
    decreases field
  {
    var entry, v := field.entry, Held(config, field.key);
    var fieldPath := (if path == "" then "" else path + ".") + field.key;
    if v == Null && entry.types != Exactly(TDict) then TakesNull(entry.types)
    else if entry.fields.Section? then v.Dict? && AcceptsConfig(v.entries, entry.fields.schema, fieldPath)
    else Accepts(v, entry, fieldPath)
  }

  lemma {:induction false} FieldAcceptedIffSilent(config: Config, field: Field, path: string)
    ensures KeyErrors(Lookup(config, field.key), field.entry, PathTo(path, field.key)) == [] <==> AcceptsField(config, field, path)
    decreases field
  {
    var entry, v, fieldPath := field.entry, Lookup(config, field.key), PathTo(path, field.key);
    AcceptedIffSilent(v, entry, fieldPath);
    if entry.fields.Section? && v.Dict? {
      ConfigAcceptedIffSilent(v.entries, entry.fields.schema, fieldPath);
    }
    assert fieldPath == (if path == "" then "" else path + ".") + field.key;
    hide AcceptsConfig, ConfigErrors, Accepts, FieldErrors;
  }

  lemma {:induction false} ConfigAcceptedIffSilent(config: Config, schema: Schema, path: string)
    ensures ConfigErrors(config, schema, path) == [] <==> AcceptsConfig(config, schema, path)
    decreases schema
  {
    if schema != [] {
      var n := |schema| - 1;
      var front, last := schema[..n], schema[n];
      ConfigAcceptedIffSilent(config, front, path);
      FieldAcceptedIffSilent(config, last, path);
      assert ConfigErrors(config, schema, path) ==
             ConfigErrors(config, front, path) + KeyErrors(Lookup(config, last.key), last.entry, PathTo(path, last.key));
      AcceptsOneMore(config, schema, path);
      hide *;
    }
  }

  lemma AcceptsOneMore(config: Config, schema: Schema, path: string)
    requires schema != []
    ensures var n := |schema| - 1;
            AcceptsConfig(config, schema, path) <==> AcceptsConfig(config, schema[..n], path) && AcceptsField(config, schema[n], path)
  {
    hide AcceptsField;
    var n := |schema| - 1;
    assert forall i | 0 <= i < n :: schema[..n][i] == schema[i];
  }

  // ----- the loops -----

  method ValidateItems(v: Value, entry: Entry, path: string) returns (errors: seq<Error>)
    requires v.List? && entry.itemType.Some?
    ensures errors == ListErrors(v, entry, path)
  {
    errors := [];
    if |v.items| < entry.minLength {
      errors := errors + [Error(path, TooFewItems)];
    }
    if entry.maxLength.Some? && |v.items| > entry.maxLength.value {
      errors := errors + [Error(path, TooManyItems)];
    }
    ghost var before := errors;
    for i := 0 to |v.items|
      invariant errors == before + ItemErrors(v.items, i, entry.itemType.value, path)
    {
      if !CheckType(v.items[i], entry.itemType.value) {
        errors := errors + [Error(path, WrongItemType(i))];
      }
    }
  }

  method ValidateField(v: Value, entry: Entry, path: string) returns (errors: seq<Error>)
    ensures errors == FieldErrors(v, entry, path)
    ensures errors == [] <==> Accepts(v, entry, path)
  {
    AcceptedIffSilent(v, entry, path);
    if v.Null? {
      if Nullable(entry.types) {
        return [];
      }
      return [Error(path, NullValue)];
    }
    if !CheckType(v, entry.types) {
      return [Error(path, WrongType)];
    }
    errors := EnumErrors(v, entry, path) + RangeErrors(v, entry, path);
    var more := [];
    if entry.itemType.Some? && v.List? {
      more := ValidateItems(v, entry, path);
    }
    errors := errors + more + CustomErrors(v, entry, path);
  }

  method ValidateConfig(config: Config, schema: Schema, path: string) returns (errors: seq<Error>)
    ensures errors == ConfigErrors(config, schema, path)
    ensures errors == [] <==> AcceptsConfig(config, schema, path)
    decreases schema
  {
    ConfigAcceptedIffSilent(config, schema, path);
    hide AcceptsConfig, Accepts;
    errors := [];
    for i := 0 to |schema|
      invariant errors == ConfigErrors(config, schema[..i], path)
    {
      var entry, v, fieldPath := schema[i].entry, Lookup(config, schema[i].key), PathTo(path, schema[i].key);
      assert schema[..i + 1][..i] == schema[..i];
      if v.Null? && entry.types != Exactly(TDict) {
        if !Nullable(entry.types) {
          errors := errors + [Error(fieldPath, Missing)];
        }
        continue;
      }
      if entry.fields.Section? {
        if !v.Dict? {
          errors := errors + [Error(fieldPath, NotASection)];
          continue;
        }
        var more := ValidateConfig(v.entries, entry.fields.schema, fieldPath);
        errors := errors + more;
      } else {
        var more := ValidateField(v, entry, fieldPath);
        errors := errors + more;
      }
    }
    assert schema[..|schema|] == schema;
  }
}
