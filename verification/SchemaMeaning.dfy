/**
 What a schema means, keyword by keyword and without any order of checking, and the
 proof that the two recursive passes of `OutputSchema` decide exactly that.
 */
module SchemaMeaning {
  import opened Wrappers
  import opened Sequences
  import opened OutputSchema

  // ---------------------------------------------------------------- well-formed schemas

  /** The same JSON value: numbers by value, everything else by shape. */
  predicate Same(a: Value, b: Value) {
    Finite(a) && Canon(a) == Canon(b)
  }

  predicate PairwiseDistinct(items: seq<Value>) {
    forall i, j :: 0 <= i < j < |items| ==> !Same(items[i], items[j])
  }

  predicate NoRepeats(names: seq<Name>) {
    forall i, j :: 0 <= i < j < |names| ==> names[i] != names[j]
  }

  predicate DistinctItems(items: seq<Value>) {
    forall i, j :: 0 <= i < j < |items| ==> items[i] != items[j]
  }

  /** One of the seven type names. */
  predicate IsType(v: Value) {
    v.Str? && match v.s
              case NullName | BooleanName | IntegerName | NumberName | StringName | ArrayName | ObjectName => true
              case _ => false
  }

  predicate IsTypeList(v: Value) {
    && v.Arr?
    && v.items != []
    && (forall k :: 0 <= k < |v.items| ==> IsType(v.items[k]))
    && DistinctItems(v.items)
  }

  /** The number a value is; a boolean is none, and neither is a float that JSON does not have. */
  function NumberOf(v: Value): Option<real> {
    match v
    case Int(i) => Some(i as real)
    case Float(r) => Some(r)
    case _ => None
  }

  /** The value `v` may stand under keyword `k`. */
  predicate ShapeOk(k: Name, v: Value, root: bool)
    decreases v, 1
  {
    match k
    case Type => IsType(v) || IsTypeList(v)
    case Const => true
    case Enum => v.Arr? && v.items != [] && PairwiseDistinct(v.items)
    case Properties => v.Obj? && forall name :: name in v.fields ==>
      v.fields[name].Obj? && WellFormed(v.fields[name], false)
    case Required => v.Arr? && (forall k :: 0 <= k < |v.items| ==> v.items[k].Str?) && DistinctItems(v.items)
    case Items => v.Obj? && WellFormed(v, false)
    case AdditionalProperties | UniqueItems => v.Bool?
    case Minimum | Maximum | ExclusiveMinimum | ExclusiveMaximum => v.Int? || v.Float?
    case MaxItems | MinLength | MaxLength => v.Int? && 0 <= v.i
    case SchemaUri => root && v.Str?
    case _ => false
  }

  /** The numbers under both keywords, when both are there, leave room between them. */
  predicate Room(schema: Schema, low: Name, high: Name, strict: bool) {
    low in schema && high in schema && NumberOf(schema[low]).Some? && NumberOf(schema[high]).Some? ==>
      var least, most := NumberOf(schema[low]).value, NumberOf(schema[high]).value;
      if strict then least < most else least <= most
  }

  /** No pair of bounds excludes every value. */
  predicate RangesOk(schema: Schema) {
    && Room(schema, Minimum, Maximum, false)
    && Room(schema, ExclusiveMinimum, ExclusiveMaximum, true)
    && (MinLength in schema && MaxLength in schema && schema[MinLength].Int? && schema[MaxLength].Int? ==>
          schema[MinLength].i <= schema[MaxLength].i)
  }

  /** Every keyword present, at every depth, is a supported one with a value of its own shape. */
  predicate WellFormed(v: Value, root: bool)
    requires v.Obj?
    decreases v, 0
  {
    && (forall k :: k in v.fields ==> ShapeOk(k, v.fields[k], root))
    && RangesOk(v.fields)
  }

  // ---------------------------------------------------------------- what the keywords say

  /** The kinds of value each type name stands for. */
  predicate OfType(v: Value, name: Name) {
    match name
    case NullName => v.Null?
    case BooleanName => v.Bool?
    case IntegerName => v.Int?
    case NumberName => v.Int? || v.Float?
    case StringName => v.Str?
    case ArrayName => v.Arr?
    case ObjectName => v.Obj?
    case _ => false
  }

  /** `v` is of the type, or of one of the types, that `declaration` names. */
  predicate TypeAllows(declaration: Value, v: Value) {
    match declaration
    case Str(name) => OfType(v, name)
    case Arr(items) => exists k :: 0 <= k < |items| && items[k].Str? && OfType(v, items[k].s)
    case _ => false
  }

  /** The validator's own table says the same, type name by type name. */
  lemma MatchesExactly(v: Value, name: Name)
    ensures MatchesType(v, name) <==> OfType(v, name)
    ensures name in TYPE_NAMES <==> IsType(Str(name))
  {
  }

  predicate Declares(schema: Schema, name: Name) {
    Properties in schema && schema[Properties].Obj? && name in schema[Properties].fields
  }

  /** What keyword `k` of `schema` asks of `v`; a keyword asks nothing of values of other kinds. */
  predicate Holds(k: Name, schema: Schema, v: Value)
    requires k in schema
    decreases v, 0
  {
    var w := schema[k];
    match k
    case Type => TypeAllows(w, v)
    case Const => Same(v, w)
    case Enum => w.Arr? && exists n :: 0 <= n < |w.items| && Same(v, w.items[n])
    case Required => v.Obj? ==> w.Arr? && forall n :: 0 <= n < |w.items| ==> w.items[n].Str? ==>
      w.items[n].s in v.fields
    case Properties =>
      v.Obj? ==> forall name :: name in v.fields && Declares(schema, name) && w.fields[name].Obj? ==>
                   Conforms(v.fields[name], w.fields[name].fields)
    case AdditionalProperties =>
      v.Obj? && w == Bool(false) ==> forall name :: name in v.fields ==> Declares(schema, name)
    case Items => v.Arr? && w.Obj? ==> forall n :: 0 <= n < |v.items| ==> Conforms(v.items[n], w.fields)
    case MaxItems => v.Arr? && w.Int? ==> |v.items| <= w.i
    case UniqueItems => v.Arr? && w == Bool(true) ==> PairwiseDistinct(v.items)
    case Minimum => NumberOf(v).Some? && NumberOf(w).Some? ==> NumberOf(w).value <= NumberOf(v).value
    case Maximum => NumberOf(v).Some? && NumberOf(w).Some? ==> NumberOf(v).value <= NumberOf(w).value
    case ExclusiveMinimum => NumberOf(v).Some? && NumberOf(w).Some? ==> NumberOf(w).value < NumberOf(v).value
    case ExclusiveMaximum => NumberOf(v).Some? && NumberOf(w).Some? ==> NumberOf(v).value < NumberOf(w).value
    case MinLength => v.Str? && w.Int? ==> w.i <= Length(v.s)
    case MaxLength => v.Str? && w.Int? ==> Length(v.s) <= w.i
    case _ => true
  }

  /** `v` satisfies every keyword of `schema`. */
  predicate Conforms(v: Value, schema: Schema)
    decreases v, 1
  {
    forall k :: k in schema ==> Holds(k, schema, v)
  }

  // ---------------------------------------------------------------- the schema pass

  lemma {:induction false} SetSizeAtMost(names: seq<Name>)
    ensures |set n | n in names| <= |names|
    ensures SameSizeAsSet(names) <==> NoRepeats(names)
    decreases |names|
  {
    if names == [] {
      assert (set n | n in names) == {};
    } else {
      var front, last := names[..|names| - 1], names[|names| - 1];
      SetSizeAtMost(front);
      NoRepeatsPush(front, last);
      SetSizePush(front, last);
      SplitLast(names);
    }
  }

  lemma NoRepeatsPush(front: seq<Name>, last: Name)
    ensures NoRepeats(front + [last]) <==> NoRepeats(front) && last !in front
  {
    var names := front + [last];
    assert forall i :: 0 <= i < |front| ==> names[i] == front[i];
    if last in front {
      var i :| 0 <= i < |front| && front[i] == last;
      assert names[i] == names[|front|];
    }
    if !NoRepeats(front) {
      var i, j :| 0 <= i < j < |front| && front[i] == front[j];
      assert names[i] == names[j];
    }
  }

  lemma SetSizePush(front: seq<Name>, last: Name)
    ensures |set n | n in front + [last]| == |set n | n in front| + if last in front then 0 else 1
  {
    var all, before := set n | n in front + [last], set n | n in front;
    assert all == before + {last};
    if last in front {
      assert all == before;
    }
  }

  lemma DuplicatesMeaning(items: seq<Value>)
    ensures HasDuplicates(items) <==> !PairwiseDistinct(items)
  {
    forall i, j | 0 <= i < j < |items| ensures JsonEqual(items[i], items[j]) <==> Same(items[i], items[j]) {
      JsonEqualMeaning(items[i], items[j]);
    }
  }

  lemma TypesMeaning(schema: Schema)
    ensures DeclaredTypes(schema).Malformed? <==> Type in schema && !ShapeOk(Type, schema[Type], true)
    ensures DeclaredTypes(schema).Anything? <==> Type !in schema
    ensures DeclaredTypes(schema).OneOf? && schema[Type].Str? ==> DeclaredTypes(schema).names == [schema[Type].s]
    ensures DeclaredTypes(schema).OneOf? && !schema[Type].Str? ==>
              schema[Type].Arr? && AllStrings(schema[Type].items) &&
                DeclaredTypes(schema).names == NamesOf(schema[Type].items)
  {
    if Type in schema && schema[Type].Str? {
      MatchesExactly(Null, schema[Type].s);
    }
    if Type in schema && schema[Type].Arr? && AllStrings(schema[Type].items) {
      var items := schema[Type].items;
      SetSizeAtMost(NamesOf(items));
      DistinctNames(items);
      AllTypes(items);
    }
  }

  lemma AllTypes(items: seq<Value>)
    requires AllStrings(items)
    ensures AllTypeNames(NamesOf(items)) <==> forall k :: 0 <= k < |items| ==> IsType(items[k])
  {
    var names := NamesOf(items);
    forall k | 0 <= k < |items| ensures names[k] in TYPE_NAMES <==> IsType(items[k]) {
      MatchesExactly(Null, names[k]);
    }
    if AllTypeNames(names) {
      forall k | 0 <= k < |items| ensures IsType(items[k]) {
        assert names[k] in names;
      }
    }
  }

  lemma DistinctNames(items: seq<Value>)
    requires AllStrings(items)
    ensures NoRepeats(NamesOf(items)) <==> DistinctItems(items)
  {
    var names := NamesOf(items);
    assert forall k :: 0 <= k < |items| ==> items[k] == Str(names[k]);
    if DistinctItems(items) {
      forall i, j | 0 <= i < j < |names| ensures names[i] != names[j] {
        assert items[i] != items[j];
      }
    }
  }

  /** The nested schemas under one keyword are accepted exactly when they are well formed. */
  ghost predicate NestedAgree(v: Value)
    requires v.Obj?
  {
    forall name :: name in v.fields && v.fields[name].Obj? ==>
      (SchemaAccepted(v.fields[name], false) <==> WellFormed(v.fields[name], false))
  }

  predicate ShapeAt(k: Name, schema: Schema, root: bool) {
    k in schema ==> ShapeOk(k, schema[k], root)
  }

  lemma BoundsMeaning(schema: Schema, root: bool)
    ensures BoundsAccepted(schema) <==>
              && RangesOk(schema)
              && ShapeAt(MaxItems, schema, root) && ShapeAt(UniqueItems, schema, root)
              && ShapeAt(Minimum, schema, root) && ShapeAt(Maximum, schema, root)
              && ShapeAt(ExclusiveMinimum, schema, root) && ShapeAt(ExclusiveMaximum, schema, root)
              && ShapeAt(MinLength, schema, root) && ShapeAt(MaxLength, schema, root)
  {
  }

  /** The checks made inside the schema, on the keywords that hold values, names or nested schemas. */
  lemma ListsMeaning(schema: Schema, root: bool)
    ensures !DeclaredTypes(schema).Malformed? <==> ShapeAt(Type, schema, root)
    ensures (Enum in schema ==> schema[Enum].Arr? && schema[Enum].items != [] && !HasDuplicates(schema[Enum].items))
            <==> ShapeAt(Enum, schema, root)
    ensures (Required in schema ==> RequiredAccepted(schema[Required])) <==> ShapeAt(Required, schema, root)
  {
    TypesMeaning(schema);
    if Enum in schema && schema[Enum].Arr? {
      DuplicatesMeaning(schema[Enum].items);
    }
    if Required in schema && schema[Required].Arr? && AllStrings(schema[Required].items) {
      SetSizeAtMost(NamesOf(schema[Required].items));
      DistinctNames(schema[Required].items);
    }
  }

  lemma {:induction false} ShapesByKeyword(schema: Schema, root: bool)
    ensures (forall k :: k in schema ==> ShapeOk(k, schema[k], root)) <==>
              && (forall k :: k in schema ==> IsKeyword(k, root))
              && ShapeAt(Type, schema, root) && ShapeAt(Enum, schema, root)
              && ShapeAt(SchemaUri, schema, root) && ShapeAt(Properties, schema, root)
              && ShapeAt(Required, schema, root) && ShapeAt(AdditionalProperties, schema, root)
              && ShapeAt(Items, schema, root)
              && ShapeAt(MaxItems, schema, root) && ShapeAt(UniqueItems, schema, root)
              && ShapeAt(Minimum, schema, root) && ShapeAt(Maximum, schema, root)
              && ShapeAt(ExclusiveMinimum, schema, root) && ShapeAt(ExclusiveMaximum, schema, root)
              && ShapeAt(MinLength, schema, root) && ShapeAt(MaxLength, schema, root)
  {
    forall k | k in schema ensures IsKeyword(k, root) <== ShapeOk(k, schema[k], root) {
    }
  }

  /** `_validate_schema` accepts exactly the well-formed schemas, at every depth. */
  lemma {:induction false} SchemaPassMeaning(v: Value, root: bool)
    requires v.Obj?
    ensures SchemaAccepted(v, root) <==> WellFormed(v, root)
    decreases v
  {
    var schema := v.fields;
    if Items in schema && schema[Items].Obj? {
      SchemaPassMeaning(schema[Items], false);
    }
    if Properties in schema && schema[Properties].Obj? {
      forall name | name in schema[Properties].fields && schema[Properties].fields[name].Obj?
        ensures SchemaAccepted(schema[Properties].fields[name], false) <==>
          WellFormed(schema[Properties].fields[name], false)
      {
        SchemaPassMeaning(schema[Properties].fields[name], false);
      }
      assert NestedAgree(schema[Properties]);
    }
    SchemaPassStep(v, root);
  }

  lemma {:induction false} SchemaPassStep(v: Value, root: bool)
    requires v.Obj?
    requires Items in v.fields && v.fields[Items].Obj? ==>
               (SchemaAccepted(v.fields[Items], false) <==> WellFormed(v.fields[Items], false))
    requires Properties in v.fields && v.fields[Properties].Obj? ==> NestedAgree(v.fields[Properties])
    ensures SchemaAccepted(v, root) <==> WellFormed(v, root)
  {
    var schema := v.fields;
    BoundsMeaning(schema, root);
    ListsMeaning(schema, root);
    ShapesByKeyword(schema, root);
  }

  // ---------------------------------------------------------------- the value pass

  /** `schema` is the field map of a well-formed schema, nested or not. */
  predicate Sound(schema: Schema) {
    WellFormed(Obj(schema), true)
  }

  predicate HoldsAt(k: Name, schema: Schema, v: Value) {
    k in schema ==> Holds(k, schema, v)
  }

  lemma ShapeOf(schema: Schema, k: Name)
    requires Sound(schema)
    ensures ShapeAt(k, schema, true)
  {
    assert k in schema ==> ShapeOk(k, Obj(schema).fields[k], true);
  }

  /** A nested schema is as sound as a root one: only `$schema` tells them apart. */
  lemma {:induction false} NestedSound(v: Value)
    requires v.Obj? && WellFormed(v, false)
    ensures Sound(v.fields)
  {
    forall k | k in v.fields ensures ShapeOk(k, v.fields[k], true) {
      assert ShapeOk(k, v.fields[k], false);
    }
  }

  lemma SomeNameMatches(v: Value, items: seq<Value>)
    requires AllStrings(items)
    ensures MatchesSome(v, NamesOf(items)) <==> TypeAllows(Arr(items), v)
  {
    var names := NamesOf(items);
    if MatchesSome(v, names) {
      var n :| n in names && MatchesType(v, n);
      var k :| 0 <= k < |names| && names[k] == n;
      MatchesExactly(v, n);
      assert items[k].Str? && OfType(v, items[k].s);
    }
    if TypeAllows(Arr(items), v) {
      var k :| 0 <= k < |items| && items[k].Str? && OfType(v, items[k].s);
      MatchesExactly(v, items[k].s);
      assert names[k] in names;
    }
  }

  lemma TypeHolds(v: Value, schema: Schema)
    requires Sound(schema)
    ensures !DeclaredTypes(schema).Malformed?
    ensures (DeclaredTypes(schema).OneOf? ==> MatchesSome(v, DeclaredTypes(schema).names)) <==> HoldsAt(Type, schema, v)
  {
    ShapeOf(schema, Type);
    TypesMeaning(schema);
    if Type in schema && schema[Type].Str? {
      MatchesExactly(v, schema[Type].s);
    }
    if DeclaredTypes(schema).OneOf? && !schema[Type].Str? {
      SomeNameMatches(v, schema[Type].items);
    }
  }

  lemma {:induction false} ConstHolds(v: Value, schema: Schema)
    ensures (Const in schema ==> JsonEqual(v, schema[Const])) <==> HoldsAt(Const, schema, v)
  {
    if Const in schema {
      JsonEqualMeaning(v, schema[Const]);
    }
  }

  lemma EnumHolds(v: Value, schema: Schema)
    requires Sound(schema)
    ensures Enum in schema ==> schema[Enum].Arr?
    ensures (Enum in schema ==> EqualsSome(v, schema[Enum].items)) <==> HoldsAt(Enum, schema, v)
  {
    ShapeOf(schema, Enum);
    if Enum in schema {
      var items := schema[Enum].items;
      forall k | 0 <= k < |items| ensures JsonEqual(v, items[k]) <==> Same(v, items[k]) {
        JsonEqualMeaning(v, items[k]);
      }
    }
  }

  predicate NumericHolds(schema: Schema, v: Value) {
    HoldsAt(Minimum, schema, v) && HoldsAt(Maximum, schema, v)
    && HoldsAt(ExclusiveMinimum, schema, v) && HoldsAt(ExclusiveMaximum, schema, v)
  }

  predicate LengthsHold(schema: Schema, v: Value) {
    HoldsAt(MinLength, schema, v) && HoldsAt(MaxLength, schema, v)
  }

  predicate ArrayHolds(schema: Schema, v: Value) {
    HoldsAt(MaxItems, schema, v) && HoldsAt(UniqueItems, schema, v) && HoldsAt(Items, schema, v)
  }

  predicate ObjectHolds(schema: Schema, v: Value) {
    HoldsAt(Required, schema, v) && HoldsAt(AdditionalProperties, schema, v) && HoldsAt(Properties, schema, v)
  }

  lemma NumberMeaning(v: Value, schema: Schema)
    ensures AsNumber(v).Some? ==>
      (ValidateNumber(AsNumber(v).value, schema) == if NumericHolds(schema, v) then Pass else Mismatch)
    ensures AsNumber(v).None? ==> NumericHolds(schema, v)
  {
  }

  lemma StringMeaning(v: Value, schema: Schema)
    ensures v.Str? ==> (ValidateString(v.s, schema) == if LengthsHold(schema, v) then Pass else Mismatch)
    ensures !v.Str? ==> LengthsHold(schema, v)
  {
  }

  /** The answer the value pass ought to give. */
  function Expected(v: Value, schema: Schema): Check {
    if Conforms(v, schema) then Pass else Mismatch
  }

  lemma {:induction false} ArrayMeaning(v: Value, schema: Schema)
    requires Sound(schema)
    requires v.Arr? && Items in schema && schema[Items].Obj? ==>
               forall k :: 0 <= k < |v.items| ==>
                 ValidateValue(v.items[k], schema[Items].fields) == Expected(v.items[k], schema[Items].fields)
    ensures v.Arr? ==> (ValidateArray(v, schema) == if ArrayHolds(schema, v) then Pass else Mismatch)
    ensures !v.Arr? ==> ArrayHolds(schema, v)
  {
    ShapeOf(schema, MaxItems);
    ShapeOf(schema, Items);
    if v.Arr? {
      DuplicatesMeaning(v.items);
    }
  }

  lemma {:induction false} ObjectMeaning(v: Value, schema: Schema)
    requires Sound(schema)
    requires v.Obj? && Properties in schema && schema[Properties].Obj? ==>
               var declared := schema[Properties].fields;
               forall name :: name in v.fields && name in declared && declared[name].Obj? ==>
                 ValidateValue(v.fields[name], declared[name].fields)
                   == Expected(v.fields[name], declared[name].fields)
    ensures v.Obj? ==> (ValidateObject(v, schema) == if ObjectHolds(schema, v) then Pass else Mismatch)
    ensures !v.Obj? ==> ObjectHolds(schema, v)
  {
    ShapeOf(schema, Properties);
    ShapeOf(schema, Required);
    if v.Obj? {
      var properties := if Properties in schema then schema[Properties] else Obj(map[]);
      assert (v.fields.Keys - properties.fields.Keys == {}) <==>
        forall name :: name in v.fields ==> Declares(schema, name) by {
        if v.fields.Keys - properties.fields.Keys != {} {
          var name :| name in v.fields.Keys - properties.fields.Keys;
          assert name in v.fields && !Declares(schema, name);
        } else {
          forall name | name in v.fields ensures Declares(schema, name) {
            assert name !in v.fields.Keys - properties.fields.Keys;
          }
        }
      }
    }
  }

  /** Every keyword that is read holds. */
  predicate KeywordsHold(v: Value, schema: Schema) {
    && HoldsAt(Type, schema, v) && HoldsAt(Const, schema, v) && HoldsAt(Enum, schema, v)
    && ObjectHolds(schema, v) && ArrayHolds(schema, v) && NumericHolds(schema, v) && LengthsHold(schema, v)
  }

  lemma {:induction false} ConformsByKeyword(v: Value, schema: Schema)
    ensures Conforms(v, schema) <==> KeywordsHold(v, schema)
  {
    if KeywordsHold(v, schema) {
      forall k | k in schema ensures Holds(k, schema, v) {
        KeywordHolds(k, v, schema);
      }
    }
    if Conforms(v, schema) {
      EachHolds(v, schema);
    }
  }

  lemma {:induction false} EachHolds(v: Value, schema: Schema)
    requires Conforms(v, schema)
    ensures KeywordsHold(v, schema)
  {
    PartsHold(v, schema);
    MeasuresHold(v, schema);
  }

  lemma {:induction false} PartsHold(v: Value, schema: Schema)
    requires Conforms(v, schema)
    ensures HoldsAt(Type, schema, v) && HoldsAt(Const, schema, v) && HoldsAt(Enum, schema, v)
    ensures ObjectHolds(schema, v) && ArrayHolds(schema, v)
  {
  }

  lemma {:induction false} MeasuresHold(v: Value, schema: Schema)
    requires Conforms(v, schema)
    ensures NumericHolds(schema, v) && LengthsHold(schema, v)
  {
  }

  lemma {:induction false} KeywordHolds(k: Name, v: Value, schema: Schema)
    requires KeywordsHold(v, schema) && k in schema
    ensures Holds(k, schema, v)
  {
    assert HoldsAt(k, schema, v);
  }

  lemma {:induction false} ValueStep(v: Value, schema: Schema)
    requires Sound(schema)
    requires v.Obj? ==> (ValidateObject(v, schema) == if ObjectHolds(schema, v) then Pass else Mismatch)
    requires !v.Obj? ==> ObjectHolds(schema, v)
    requires v.Arr? ==> (ValidateArray(v, schema) == if ArrayHolds(schema, v) then Pass else Mismatch)
    requires !v.Arr? ==> ArrayHolds(schema, v)
    ensures ValidateValue(v, schema) == Expected(v, schema)
  {
    TypeHolds(v, schema);
    ConstHolds(v, schema);
    EnumHolds(v, schema);
    NumberMeaning(v, schema);
    StringMeaning(v, schema);
    ConformsByKeyword(v, schema);
  }

  /**
   On a well-formed schema, `_validate_value` never reaches a guard, and it returns
   exactly when the value satisfies every keyword.
   */
  lemma {:induction false} ValuePassMeaning(v: Value, schema: Schema)
    requires Sound(schema)
    ensures ValidateValue(v, schema) == Expected(v, schema)
    decreases v
  {
    ShapeOf(schema, Items);
    ShapeOf(schema, Properties);
    if v.Arr? && Items in schema {
      NestedSound(schema[Items]);
      forall k | 0 <= k < |v.items|
        ensures ValidateValue(v.items[k], schema[Items].fields) == Expected(v.items[k], schema[Items].fields)
      {
        ValuePassMeaning(v.items[k], schema[Items].fields);
      }
    }
    if v.Obj? && Properties in schema {
      var properties := schema[Properties].fields;
      forall name | name in v.fields && name in properties
        ensures ValidateValue(v.fields[name], properties[name].fields)
          == Expected(v.fields[name], properties[name].fields)
      {
        NestedSound(properties[name]);
        ValuePassMeaning(v.fields[name], properties[name].fields);
      }
    }
    ArrayMeaning(v, schema);
    ObjectMeaning(v, schema);
    ValueStep(v, schema);
  }

  /** `validate_output`, whole: what it accepts, why it rejects, and that its guards are dead. */
  lemma {:induction false} ValidateOutputMeaning(output: Value, schema: Schema)
    requires output.Obj?
    ensures ValidateOutput(output, schema).Accepted? <==>
              WellFormed(Obj(schema), true) && (Type in schema ==> TypeAllows(schema[Type], Obj(map[]))) &&
                Conforms(output, schema)
    ensures ValidateOutput(output, schema).SchemaRejected? <==> !WellFormed(Obj(schema), true)
    ensures ValidateOutput(output, schema).RootRejected?
            <==> WellFormed(Obj(schema), true) && Type in schema && !TypeAllows(schema[Type], Obj(map[]))
    ensures !ValidateOutput(output, schema).GuardReached?
  {
    SchemaPassMeaning(Obj(schema), true);
    if Sound(schema) {
      TypeHolds(Obj(map[]), schema);
      ValuePassMeaning(output, schema);
      ObjectAllowed(schema);
    }
  }

  lemma ObjectAllowed(schema: Schema)
    requires Sound(schema)
    ensures !DeclaredTypes(schema).Malformed?
    ensures DeclaredTypes(schema).OneOf? ==>
              (ObjectName in DeclaredTypes(schema).names <==> TypeAllows(schema[Type], Obj(map[])))
    ensures DeclaredTypes(schema).Anything? <==> Type !in schema
  {
    TypesMeaning(schema);
    TypeHolds(Obj(map[]), schema);
    if DeclaredTypes(schema).OneOf? {
      var names := DeclaredTypes(schema).names;
      assert MatchesSome(Obj(map[]), names) <==> ObjectName in names;
    }
  }
}
