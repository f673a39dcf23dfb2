/**
 Compiling TypeScript types to JSON Schema (packages/openapi/src/type-to-schema.lib.ts).

 `Inhabits` gives a type its meaning on JSON values and `Validates` gives a schema its meaning, after
 JSON Schema 2020-12; the compiler is proved to preserve the one in the other.  Named types mean
 whatever `defs` says, on both sides.
 */
module JsonSchemas {
  import opened Wrappers
  import opened JsonData

  datatype Primitive = StringPrimitive | NumberPrimitive | BooleanPrimitive | NullPrimitive | UndefinedPrimitive

  datatype TypeInfo =
    | PrimitiveType(primitive: Primitive)
    | LiteralType(value: Json)
    | NamedType(name: string)
    | ArrayType(items: TypeInfo)
    | ObjectType(properties: seq<PropertyInfo>)
    | UnionType(types: seq<TypeInfo>)
    | PromiseType(inner: TypeInfo)
    | UnknownType
    | RefType(name: string)

  datatype PropertyInfo = PropertyInfo(name: string, type_: TypeInfo, optional: bool)

  datatype TypeKeyword = NoType | OneType(name: string) | TypeList(names: seq<string>)

  /** A schema object; an empty `properties`, `required` or `anyOf` is an absent keyword. */
  datatype Schema = Schema(
    type_: TypeKeyword,
    const_: Option<Json>,
    items: Option<Schema>,
    properties: map<string, Schema>,
    required: seq<string>,
    anyOf: seq<Schema>,
    ref: Option<string>)

  const ANYTHING := Schema(NoType, None, None, map[], [], [], None)

  /** What a named type or a `$ref` means. */
  type Definitions = (string, Json) -> bool

  // ---------- the meaning of a schema ----------

  function InstanceType(v: Json): string {
    match v
    case JNull => "null"
    case JBool(_) => "boolean"
    case JNumber(_) => "number"
    case JString(_) => "string"
    case JArray(_) => "array"
    case JObject(_) => "object"
  }

  predicate TypeAllows(k: TypeKeyword, v: Json) {
    match k
    case NoType => true
    case OneType(name) => InstanceType(v) == name
    case TypeList(names) => InstanceType(v) in names
  }

  predicate Validates(v: Json, s: Schema, defs: Definitions)
    decreases s
  {
    && TypeAllows(s.type_, v)
    && (s.const_.Some? ==> v == s.const_.value)
    && (s.items.Some? && v.JArray? ==> forall i :: 0 <= i < |v.items| ==> Validates(v.items[i], s.items.value, defs))
    && (v.JObject? ==>
          && (forall k :: k in s.properties && k in v.fields ==> Validates(v.fields[k], s.properties[k], defs))
          && (forall k :: k in s.required ==> k in v.fields))
    && (s.anyOf != [] ==> exists i :: 0 <= i < |s.anyOf| && Validates(v, s.anyOf[i], defs))
    && (s.ref.Some? ==> defs(s.ref.value, v))
  }

  // ---------- the meaning of a type ----------

  predicate IsBrand(name: string) {
    |name| >= 3 && name[0] == '_' && name[1] == '_' && name[2] == '@'
  }

  predicate TypedResponseKey(name: string) {
    name == "_data" || name == "_status" || name == "_format"
  }

  /** findTypedResponseDataType: the body type of a typed response, if the properties have exactly that shape. */
  function TypedResponseData(ps: seq<PropertyInfo>): Option<TypeInfo> {
    if |ps| != 3 || exists p :: p in ps && !TypedResponseKey(p.name) then None else LastData(ps, |ps|)
  }

  function LastData(ps: seq<PropertyInfo>, count: nat): Option<TypeInfo>
    requires count <= |ps|
    ensures LastData(ps, count).Some? ==> exists i :: 0 <= i < count && LastData(ps, count).value == ps[i].type_
  {
    if count == 0 then None
    else if ps[count - 1].name == "_data" then Some(ps[count - 1].type_)
    else LastData(ps, count - 1)
  }

  predicate Inhabits(v: Json, t: TypeInfo, defs: Definitions)
    decreases t
  {
    match t
    case PrimitiveType(p) =>
      (match p
       case StringPrimitive => v.JString?
       case NumberPrimitive => v.JNumber?
       case BooleanPrimitive => v.JBool?
       case NullPrimitive => v.JNull?
       case UndefinedPrimitive => false)
    case LiteralType(value) => v == value
    case NamedType(name) => defs(name, v)
    case RefType(name) => defs(name, v)
    case ArrayType(items) => v.JArray? && forall i :: 0 <= i < |v.items| ==> Inhabits(v.items[i], items, defs)
    case ObjectType(ps) =>
      if TypedResponseData(ps).Some? then
        var data := TypedResponseData(ps).value;
        assert exists i :: 0 <= i < |ps| && data == ps[i].type_;
        Inhabits(v, data, defs)
      else
        v.JObject? && forall i :: 0 <= i < |ps| && !IsBrand(ps[i].name) ==>
          if ps[i].name in v.fields then Inhabits(v.fields[ps[i].name], ps[i].type_, defs) else ps[i].optional
    case UnionType(ts) => exists i :: 0 <= i < |ts| && Inhabits(v, ts[i], defs)
    case PromiseType(inner) => Inhabits(v, inner, defs)
    case UnknownType => true
  }

  // ---------- the compiler ----------

  predicate IsUndefined(t: TypeInfo) {
    t == PrimitiveType(UndefinedPrimitive)
  }

  predicate IsNull(t: TypeInfo) {
    t == PrimitiveType(NullPrimitive)
  }

  function WithoutUndefined(ts: seq<TypeInfo>): (r: seq<TypeInfo>)
    ensures forall t :: t in r <==> t in ts && !IsUndefined(t)
    ensures |r| <= |ts|
  {
    if ts == [] then []
    else (if IsUndefined(ts[0]) then [] else [ts[0]]) + WithoutUndefined(ts[1..])
  }

  function WithoutNull(ts: seq<TypeInfo>): (r: seq<TypeInfo>)
    ensures forall t :: t in r <==> t in ts && !IsNull(t)
    ensures |r| <= |ts|
    ensures |r| == |ts| <==> forall t :: t in ts ==> !IsNull(t)
  {
    if ts == [] then []
    else (if IsNull(ts[0]) then [] else [ts[0]]) + WithoutNull(ts[1..])
  }

  function ConvertPrimitive(p: Primitive): Schema {
    match p
    case StringPrimitive => ANYTHING.(type_ := OneType("string"))
    case NumberPrimitive => ANYTHING.(type_ := OneType("number"))
    case BooleanPrimitive => ANYTHING.(type_ := OneType("boolean"))
    case NullPrimitive => ANYTHING.(type_ := OneType("null"))
    case UndefinedPrimitive => ANYTHING
  }

  /** An assignment to a plain object: the name `__proto__` sets no entry. */
  function SetEntry(properties: map<string, Schema>, name: string, s: Schema): map<string, Schema> {
    if name == "__proto__" then properties else properties[name := s]
  }

  /** buildNullableSchema, once the base type is converted. */
  function Nullable(inner: Schema): Schema {
    if inner.type_.OneType? then inner.(type_ := TypeList([inner.type_.name, "null"]))
    else ANYTHING.(anyOf := [inner, ANYTHING.(type_ := OneType("null"))])
  }

  function Convert(t: TypeInfo): Schema
    decreases t, 1
  {
    match t
    case PrimitiveType(p) => ConvertPrimitive(p)
    case LiteralType(value) => ANYTHING.(const_ := Some(value))
    case ArrayType(items) => ANYTHING.(type_ := OneType("array"), items := Some(Convert(items)))
    case ObjectType(ps) =>
      if TypedResponseData(ps).Some? then
        var data := TypedResponseData(ps).value;
        assert exists i :: 0 <= i < |ps| && data == ps[i].type_;
        Convert(data)
      else
        ANYTHING.(type_ := OneType("object"), properties := ConvertProperties(ps, |ps|), required := Required(ps, |ps|))
    case UnionType(ts) => ConvertUnion(ts)
    case NamedType(name) => ANYTHING.(ref := Some(name))
    case RefType(name) => ANYTHING.(ref := Some(name))
    case PromiseType(inner) => Convert(inner)
    case UnknownType => ANYTHING
  }

  function ConvertProperties(ps: seq<PropertyInfo>, count: nat): map<string, Schema>
    requires count <= |ps|
    decreases ps, 0, count
  {
    if count == 0 then map[]
    else
      var before := ConvertProperties(ps, count - 1);
      var p := ps[count - 1];
      if IsBrand(p.name) then before else SetEntry(before, p.name, Convert(p.type_))
  }

  function Required(ps: seq<PropertyInfo>, count: nat): seq<string>
    requires count <= |ps|
  {
    if count == 0 then []
    else
      Required(ps, count - 1) +
      if IsBrand(ps[count - 1].name) || ps[count - 1].optional then [] else [ps[count - 1].name]
  }

  function ConvertUnion(ts: seq<TypeInfo>): Schema
    decreases ts, 0, 0
  {
    var defined := WithoutUndefined(ts);
    if defined == [] then ANYTHING
    else
      assert defined[0] in defined;
      if |defined| == 1 then Convert(defined[0])
      else
        var nonNull := WithoutNull(defined);
        if |nonNull| != |defined| && |nonNull| == 1 then
          assert nonNull[0] in nonNull;
          Nullable(Convert(nonNull[0]))
        else
          ANYTHING.(anyOf := seq(|defined|, i requires 0 <= i < |defined| => assert defined[i] in defined; Convert(defined[i])))
  }
}
