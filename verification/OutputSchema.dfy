/**
 The closed output-schema validator: what it accepts, value by value, and the
 declarative meaning of its keywords, schema by schema.
 */
module OutputSchema {
  import opened Wrappers

  /**
   Every string, with the ones the validator names as constants of their own. The
   first group are keywords, the second type names; `Other` is any other string.
   */
  datatype Name =
    | Type | Const | Enum | Properties | Required | AdditionalProperties | Items | MaxItems | UniqueItems
    | Minimum | Maximum | ExclusiveMinimum | ExclusiveMaximum | MinLength | MaxLength | SchemaUri
    | NullName | BooleanName | IntegerName | NumberName | StringName | ArrayName | ObjectName
    | Other(chars: string)

  function Spelling(n: Name): string {
    match n
    case Type => "type" case Const => "const" case Enum => "enum" case Properties => "properties"
    case Required => "required" case AdditionalProperties => "additionalProperties" case Items => "items"
    case MaxItems => "maxItems" case UniqueItems => "uniqueItems" case Minimum => "minimum"
    case Maximum => "maximum" case ExclusiveMinimum => "exclusiveMinimum"
    case ExclusiveMaximum => "exclusiveMaximum" case MinLength => "minLength" case MaxLength => "maxLength"
    case SchemaUri => "$schema" case NullName => "null" case BooleanName => "boolean"
    case IntegerName => "integer" case NumberName => "number" case StringName => "string"
    case ArrayName => "array" case ObjectName => "object"
    case Other(chars) => chars
  }

  /** The number of characters of a string, which the length bounds look at. */
  function Length(n: Name): nat {
    |Spelling(n)|
  }

  /** A frozen JSON value; `NonFinite` stands for the floats JSON does not have. */
  datatype Value =
    | Null
    | Bool(b: bool)
    | Int(i: int)
    | Float(r: real)
    | NonFinite
    | Str(s: Name)
    | Arr(items: seq<Value>)
    | Obj(fields: map<Name, Value>)

  type Schema = map<Name, Value>

  // ---------------------------------------------------------------- equality

  function AsNumber(v: Value): Option<real> {
    match v
    case Int(i) => Some(i as real)
    case Float(r) => Some(r)
    case _ => None
  }

  /** `_json_equal`. */
  predicate JsonEqual(left: Value, right: Value)
    decreases left
  {
    if left.Null? || right.Null? then left.Null? && right.Null?
    else if left.Bool? || right.Bool? then left.Bool? && right.Bool? && left.b == right.b
    else if AsNumber(left).Some? || AsNumber(right).Some? then
      AsNumber(left).Some? && AsNumber(right).Some? && AsNumber(left).value == AsNumber(right).value
    else if left.Str? || right.Str? then left.Str? && right.Str? && left.s == right.s
    else if left.Arr? || right.Arr? then
      left.Arr? && right.Arr? && |left.items| == |right.items|
      && forall k :: 0 <= k < |left.items| ==> JsonEqual(left.items[k], right.items[k])
    else if left.Obj? && right.Obj? then
      left.fields.Keys == right.fields.Keys
      && forall name :: name in left.fields ==> JsonEqual(left.fields[name], right.fields[name])
    else false
  }

  /** The value with every number written as a real. */
  function Canon(v: Value): Value {
    match v
    case Int(i) => Float(i as real)
    case Arr(items) => Arr(seq(|items|, k requires 0 <= k < |items| => Canon(items[k])))
    case Obj(fields) => Obj(map name | name in fields :: Canon(fields[name]))
    case _ => v
  }

  /** No non-finite number anywhere inside. */
  predicate Finite(v: Value) {
    match v
    case NonFinite => false
    case Arr(items) => forall k :: 0 <= k < |items| ==> Finite(items[k])
    case Obj(fields) => forall name :: name in fields ==> Finite(fields[name])
    case _ => true
  }

  /** Equality is equality of canonical forms, on values JSON can hold. */
  lemma {:induction false} JsonEqualMeaning(a: Value, b: Value)
    ensures JsonEqual(a, b) <==> Finite(a) && Canon(a) == Canon(b)
    decreases a
  {
    match (a, b) {
      case (Arr(xs), Arr(ys)) =>
        forall k | 0 <= k < |xs| && k < |ys|
          ensures JsonEqual(xs[k], ys[k]) <==> Finite(xs[k]) && Canon(xs[k]) == Canon(ys[k]) {
          JsonEqualMeaning(xs[k], ys[k]);
        }
        if Canon(a) == Canon(b) {
          forall k | 0 <= k < |xs| ensures |xs| == |ys| && Canon(xs[k]) == Canon(ys[k]) {
            assert Canon(a).items[k] == Canon(b).items[k];
          }
        }
      case (Obj(f), Obj(g)) =>
        forall name | name in f && name in g
          ensures JsonEqual(f[name], g[name]) <==> Finite(f[name]) && Canon(f[name]) == Canon(g[name]) {
          JsonEqualMeaning(f[name], g[name]);
        }
        assert Canon(a).fields.Keys == f.Keys && Canon(b).fields.Keys == g.Keys;
        if Canon(a) == Canon(b) {
          forall name | name in f ensures name in g && Canon(f[name]) == Canon(g[name]) {
            assert Canon(a).fields[name] == Canon(b).fields[name];
          }
        }
      case _ =>
    }
  }

  /** On values JSON can hold, `_json_equal` is an equivalence; it is reflexive on exactly those. */
  lemma {:induction false} JsonEqualEquivalence(a: Value, b: Value, c: Value)
    ensures JsonEqual(a, a) <==> Finite(a)
    ensures JsonEqual(a, b) ==> JsonEqual(b, a)
    ensures JsonEqual(a, b) && JsonEqual(b, c) ==> JsonEqual(a, c)
  {
    JsonEqualMeaning(a, a);
    JsonEqualMeaning(a, b);
    JsonEqualMeaning(b, a);
    JsonEqualMeaning(b, c);
    JsonEqualMeaning(a, c);
    if JsonEqual(a, b) {
      CanonFinite(a);
      CanonFinite(b);
    }
  }

  lemma {:induction false} CanonFinite(v: Value)
    ensures Finite(Canon(v)) <==> Finite(v)
  {
    match v {
      case Arr(items) =>
        forall k | 0 <= k < |items| ensures Finite(Canon(items[k])) <==> Finite(items[k]) {
          CanonFinite(items[k]);
        }
        assert forall k :: 0 <= k < |items| ==> Canon(v).items[k] == Canon(items[k]);
      case Obj(fields) =>
        forall name | name in fields ensures Finite(Canon(fields[name])) <==> Finite(fields[name]) {
          CanonFinite(fields[name]);
        }
        assert forall name :: name in fields ==> Canon(v).fields[name] == Canon(fields[name]);
      case _ =>
    }
  }

  // ---------------------------------------------------------------- the schema pass

  const TYPE_NAMES: set<Name> :=
    {NullName, BooleanName, IntegerName, NumberName, StringName, ArrayName, ObjectName}

  predicate IsKeyword(n: Name, root: bool) {
    match n
    case Type | Const | Enum | Properties | Required | AdditionalProperties | Items | MaxItems | UniqueItems => true
    case Minimum | Maximum | ExclusiveMinimum | ExclusiveMaximum | MinLength | MaxLength => true
    case SchemaUri => root
    case _ => false
  }

  predicate AllStrings(items: seq<Value>) {
    forall k :: 0 <= k < |items| ==> items[k].Str?
  }

  function NamesOf(items: seq<Value>): seq<Name>
    requires AllStrings(items)
  {
    seq(|items|, k requires 0 <= k < |items| => items[k].s)
  }

  /** `len(names) == len(set(names))` */
  predicate SameSizeAsSet(names: seq<Name>) {
    |set n | n in names| == |names|
  }

  predicate AllTypeNames(names: seq<Name>) {
    forall n :: n in names ==> n in TYPE_NAMES
  }

  datatype Declared = Anything | OneOf(names: seq<Name>) | Malformed

  /** `_declared_types`; `Malformed` is its exception. */
  function DeclaredTypes(schema: Schema): Declared {
    if Type !in schema then Anything
    else
      match schema[Type]
      case Str(name) => if name in TYPE_NAMES then OneOf([name]) else Malformed
      case Arr(items) =>
        if items == [] || !AllStrings(items) then Malformed
        else if !AllTypeNames(NamesOf(items)) || !SameSizeAsSet(NamesOf(items)) then Malformed
        else OneOf(NamesOf(items))
      case _ => Malformed
  }

  predicate IsCount(v: Value) {
    v.Int? && 0 <= v.i
  }

  /** `_as_number(schema.get(keyword))` */
  function NumberAt(schema: Schema, keyword: Name): Option<real> {
    if keyword in schema then AsNumber(schema[keyword]) else None
  }

  /** The integer under `keyword`, with a boolean not taken for one. */
  function IntegerAt(schema: Schema, keyword: Name): Option<int> {
    if keyword in schema && schema[keyword].Int? then Some(schema[keyword].i) else None
  }

  /** Some item equals a later one. */
  predicate HasDuplicates(items: seq<Value>) {
    exists i, j :: 0 <= i < j < |items| && JsonEqual(items[i], items[j])
  }

  predicate RequiredAccepted(v: Value) {
    v.Arr? && AllStrings(v.items) && SameSizeAsSet(NamesOf(v.items))
  }

  predicate IsBoundary(schema: Schema, keyword: Name) {
    keyword in schema ==> AsNumber(schema[keyword]).Some?
  }

  /** The checks `_validate_schema` makes after it has looked inside nested schemas. */
  predicate BoundsAccepted(schema: Schema) {
    && (MaxItems in schema ==> IsCount(schema[MaxItems]))
    && (UniqueItems in schema ==> schema[UniqueItems].Bool?)
    && IsBoundary(schema, Minimum) && IsBoundary(schema, Maximum)
    && IsBoundary(schema, ExclusiveMinimum) && IsBoundary(schema, ExclusiveMaximum)
    && (MinLength in schema ==> IsCount(schema[MinLength]))
    && (MaxLength in schema ==> IsCount(schema[MaxLength]))
    && !(NumberAt(schema, Minimum).Some? && NumberAt(schema, Maximum).Some?
         && NumberAt(schema, Minimum).value > NumberAt(schema, Maximum).value)
    && !(NumberAt(schema, ExclusiveMinimum).Some? && NumberAt(schema, ExclusiveMaximum).Some?
         && NumberAt(schema, ExclusiveMinimum).value >= NumberAt(schema, ExclusiveMaximum).value)
    && !(IntegerAt(schema, MinLength).Some? && IntegerAt(schema, MaxLength).Some?
         && IntegerAt(schema, MinLength).value > IntegerAt(schema, MaxLength).value)
  }

  /** `_validate_schema` returns without raising. */
  predicate SchemaAccepted(v: Value, root: bool)
    requires v.Obj?
    decreases v
  {
    var schema := v.fields;
    && (forall k :: k in schema ==> IsKeyword(k, root))
    && !DeclaredTypes(schema).Malformed?
    && (Enum in schema ==> schema[Enum].Arr? && schema[Enum].items != [] && !HasDuplicates(schema[Enum].items))
    && (SchemaUri in schema ==> schema[SchemaUri].Str?)
    && (Properties in schema ==>
          schema[Properties].Obj?
          && forall name :: name in schema[Properties].fields ==>
               schema[Properties].fields[name].Obj? && SchemaAccepted(schema[Properties].fields[name], false))
    && (Required in schema ==> RequiredAccepted(schema[Required]))
    && (AdditionalProperties in schema ==> schema[AdditionalProperties].Bool?)
    && (Items in schema ==> schema[Items].Obj? && SchemaAccepted(schema[Items], false))
    && BoundsAccepted(schema)
  }

  // ---------------------------------------------------------------- the value pass

  /**
   How a check of a value ends: it returns, it raises because the value does not match,
   or it raises from one of the guards for a schema that was not checked first.
   */
  datatype Check = Pass | Mismatch | GuardHit

  predicate MatchesType(v: Value, expected: Name) {
    match expected
    case NullName => v.Null?
    case BooleanName => v.Bool?
    case IntegerName => v.Int?
    case NumberName => AsNumber(v).Some?
    case StringName => v.Str?
    case ArrayName => v.Arr?
    case ObjectName => v.Obj?
    case _ => false
  }

  predicate MatchesSome(v: Value, names: seq<Name>) {
    exists n :: n in names && MatchesType(v, n)
  }

  predicate EqualsSome(v: Value, items: seq<Value>) {
    exists k :: 0 <= k < |items| && JsonEqual(v, items[k])
  }

  /** `_validate_value`. */
  function ValidateValue(v: Value, schema: Schema): Check
    decreases v, 1
  {
    var declared := DeclaredTypes(schema);
    if declared.Malformed? then GuardHit
    else if declared.OneOf? && !MatchesSome(v, declared.names) then Mismatch
    else if Const in schema && !JsonEqual(v, schema[Const]) then Mismatch
    else if Enum in schema && !schema[Enum].Arr? then GuardHit
    else if Enum in schema && !EqualsSome(v, schema[Enum].items) then Mismatch
    else if v.Obj? then ValidateObject(v, schema)
    else if v.Arr? then ValidateArray(v, schema)
    else if AsNumber(v).Some? then ValidateNumber(AsNumber(v).value, schema)
    else if v.Str? then ValidateString(v.s, schema)
    else Pass
  }

  predicate Missing(fields: Schema, names: seq<Value>) {
    exists k :: 0 <= k < |names| && names[k].Str? && names[k].s !in fields
  }

  /**
   `_validate_object`. Fields are visited in an order the mapping chooses, so a guard
   that any field could meet counts as met.
   */
  function ValidateObject(v: Value, schema: Schema): Check
    requires v.Obj?
    decreases v, 0
  {
    var needed := if Required in schema then schema[Required] else Arr([]);
    var properties := if Properties in schema then schema[Properties] else Obj(map[]);
    if !needed.Arr? then GuardHit
    else if Missing(v.fields, needed.items) then Mismatch
    else if !properties.Obj? then GuardHit
    else if AdditionalProperties in schema && schema[AdditionalProperties] == Bool(false)
            && v.fields.Keys - properties.fields.Keys != {} then Mismatch
    else if exists name :: name in v.fields && name in properties.fields && properties.fields[name].Obj?
                           && ValidateValue(v.fields[name], properties.fields[name].fields).GuardHit? then GuardHit
    else if exists name :: name in v.fields && name in properties.fields && properties.fields[name].Obj?
                           && ValidateValue(v.fields[name], properties.fields[name].fields).Mismatch? then Mismatch
    else Pass
  }

  /** What Python reads as an integer: a boolean counts as one. */
  function AsPythonInt(v: Value): Option<int> {
    match v
    case Int(i) => Some(i)
    case Bool(b) => Some(if b then 1 else 0)
    case _ => None
  }

  /** `_validate_array`. */
  function ValidateArray(v: Value, schema: Schema): Check
    requires v.Arr?
    decreases v, 0
  {
    var most := if MaxItems in schema then AsPythonInt(schema[MaxItems]) else None;
    if most.Some? && |v.items| > most.value then Mismatch
    else if UniqueItems in schema && schema[UniqueItems] == Bool(true) && HasDuplicates(v.items) then Mismatch
    else if Items !in schema || !schema[Items].Obj? then Pass
    else if exists k :: 0 <= k < |v.items| && ValidateValue(v.items[k], schema[Items].fields).GuardHit? then GuardHit
    else if exists k :: 0 <= k < |v.items| && ValidateValue(v.items[k], schema[Items].fields).Mismatch? then Mismatch
    else Pass
  }

  /** `_validate_number`. */
  function ValidateNumber(n: real, schema: Schema): Check {
    if NumberAt(schema, Minimum).Some? && n < NumberAt(schema, Minimum).value then Mismatch
    else if NumberAt(schema, Maximum).Some? && n > NumberAt(schema, Maximum).value then Mismatch
    else if NumberAt(schema, ExclusiveMinimum).Some? && n <= NumberAt(schema, ExclusiveMinimum).value then Mismatch
    else if NumberAt(schema, ExclusiveMaximum).Some? && n >= NumberAt(schema, ExclusiveMaximum).value then Mismatch
    else Pass
  }

  /** `_validate_string`. */
  function ValidateString(s: Name, schema: Schema): Check {
    if IntegerAt(schema, MinLength).Some? && Length(s) < IntegerAt(schema, MinLength).value then Mismatch
    else if IntegerAt(schema, MaxLength).Some? && Length(s) > IntegerAt(schema, MaxLength).value then Mismatch
    else Pass
  }

  /** How `validate_output` ends. */
  datatype Verdict = Accepted | SchemaRejected | RootRejected | ValueRejected | GuardReached

  function ValidateOutput(output: Value, schema: Schema): Verdict
    requires output.Obj?
  {
    if !SchemaAccepted(Obj(schema), true) then SchemaRejected
    else if DeclaredTypes(schema).Malformed? then GuardReached
    else if DeclaredTypes(schema).OneOf? && ObjectName !in DeclaredTypes(schema).names then RootRejected
    else
      match ValidateValue(output, schema)
      case Pass => Accepted
      case Mismatch => ValueRejected
      case GuardHit => GuardReached
  }
}
