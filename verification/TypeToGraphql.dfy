/**
 Converting TypeScript types to GraphQL definitions (packages/graphql/src/type-to-graphql.lib.ts).
 The context collects definitions while types are converted; printing it at the end must leave no type
 undefined.  Field types are kept as type references: comparing the references is comparing the strings
 the source keeps, by GraphqlShape.PrintInjective.
 */
module TypeToGraphql {
  import opened Wrappers
  import opened GraphqlShape

  datatype Primitive = StringPrimitive | NumberPrimitive | BooleanPrimitive | NullPrimitive | UndefinedPrimitive

  datatype Literal = StringLiteral(s: string) | NumberLiteral | BooleanLiteral

  datatype ScalarRef = ScalarRef(modulePath: string, exportName: string)

  datatype TypeInfo =
    | PrimitiveType(primitive: Primitive)
    | LiteralType(value: Literal)
    | NamedType(name: string)
    | RefType(name: string)
    | ArrayType(items: TypeInfo)
    | ObjectType(properties: seq<PropertyInfo>)
    | UnionType(types: seq<TypeInfo>)
    | PromiseType(inner: TypeInfo)
    | UnknownType
    | ScalarType(scalar: string, ref: ScalarRef)
    | NamedUnionType(union: string, nullable: bool, members: seq<MemberInfo>)

  datatype PropertyInfo = PropertyInfo(name: string, type_: TypeInfo, optional: bool)

  datatype MemberInfo = MemberInfo(name: string, type_: TypeInfo)

  datatype TypeRef = TypeRef(type_: Type, nullable: bool)

  datatype Context = Context(
    objects: map<string, map<string, Type>>,
    enums: map<string, seq<string>>,
    scalars: map<string, ScalarRef>,
    unions: map<string, seq<string>>,
    referenced: set<string>)

  const EMPTY := Context(map[], map[], map[], map[], {})

  // ---------- names ----------

  predicate IsLower(c: char) {
    'a' <= c <= 'z'
  }

  predicate IsLetter(c: char) {
    IsLower(c) || 'A' <= c <= 'Z'
  }

  predicate IsAlphanumeric(c: char) {
    IsLetter(c) || '0' <= c <= '9'
  }

  function ToUpper(c: char): char {
    if IsLower(c) then (c as int - 32) as char else c
  }

  /** The runs of letters and digits joined, each starting in upper case. */
  function JoinWords(s: string, starting: bool): string {
    if s == [] then []
    else if !IsAlphanumeric(s[0]) then JoinWords(s[1..], true)
    else [if starting then ToUpper(s[0]) else s[0]] + JoinWords(s[1..], false)
  }

  function ToPascalCase(s: string): string {
    if JoinWords(s, true) == [] then "Value" else JoinWords(s, true)
  }

  function ToTypeName(s: string): string {
    var name := ToPascalCase(s);
    if IsLetter(name[0]) then name else "_" + name
  }

  predicate IsFieldName(s: string) {
    s != [] && (s[0] == '_' || IsLetter(s[0])) && forall i :: 0 < i < |s| ==> s[i] == '_' || IsAlphanumeric(s[i])
  }

  predicate IsBrand(name: string) {
    |name| >= 3 && name[0] == '_' && name[1] == '_' && name[2] == '@'
  }

  // ---------- leaves ----------

  function Render(r: TypeRef): Type {
    if r.nullable then r.type_ else NonNull(r.type_)
  }

  predicate IsNullish(t: TypeInfo) {
    t == PrimitiveType(NullPrimitive) || t == PrimitiveType(UndefinedPrimitive)
  }

  function NonNullish(ts: seq<TypeInfo>): (r: seq<TypeInfo>)
    ensures forall t :: t in r ==> t in ts
    ensures |r| <= |ts|
  {
    if ts == [] then [] else (if IsNullish(ts[0]) then [] else [ts[0]]) + NonNullish(ts[1..])
  }

  /** The values of a union made of string literals only. */
  function StringLiterals(ts: seq<TypeInfo>): Option<seq<string>> {
    if ts == [] then Some([])
    else if !ts[0].LiteralType? || !ts[0].value.StringLiteral? then None
    else
      match StringLiterals(ts[1..])
      case Some(rest) => Some([ts[0].value.s] + rest)
      case None => None
  }

  /** How enum values are spelled; any spelling will do. */
  type Spelling = string -> string

  predicate SameMembers(existing: seq<string>, values: seq<string>) {
    |set v | v in existing| == |values| && forall v :: v in values ==> v in existing
  }

  function EnsureEnum(c: Context, hint: Option<string>, values: seq<string>, spell: Spelling): Option<(TypeRef, Context)> {
    var name := ToTypeName(if hint.Some? then hint.value else "GraphqlEnum");
    var spelled := seq(|values|, i requires 0 <= i < |values| => spell(values[i]));
    if name in c.enums && !SameMembers(c.enums[name], spelled) then None
    else Some((TypeRef(Named(name), false), c.(enums := c.enums[name := spelled])))
  }

  function EnsureObject(c: Context, name: string): Context {
    var n := ToTypeName(name);
    if n in c.objects then c else c.(objects := c.objects[n := map[]])
  }

  function EnsureScalar(c: Context, scalar: string, ref: ScalarRef): Option<(TypeRef, Context)> {
    var name := ToTypeName(scalar);
    if name in c.scalars && c.scalars[name] != ref then None
    else Some((TypeRef(Named(name), false), c.(scalars := c.scalars[name := ref])))
  }

  function AddFieldDefinition(c: Context, object_: string, field: string, t: Type): Option<Context>
    requires object_ in c.objects
  {
    var fields := c.objects[object_];
    if field in fields && fields[field] != t then None else Some(c.(objects := c.objects[object_ := fields[field := t]]))
  }

  function ConvertPrimitive(p: Primitive): Option<TypeRef> {
    match p
    case StringPrimitive => Some(TypeRef(Named("String"), false))
    case NumberPrimitive => Some(TypeRef(Named("Float"), false))
    case BooleanPrimitive => Some(TypeRef(Named("Boolean"), false))
    case _ => None
  }

  function ConvertLiteral(v: Literal): TypeRef {
    match v
    case StringLiteral(_) => TypeRef(Named("String"), false)
    case NumberLiteral => TypeRef(Named("Float"), false)
    case BooleanLiteral => TypeRef(Named("Boolean"), false)
  }

  // ---------- conversion; None is a thrown error ----------

  /** No conversion ever drops an object, so the object a field is added to is still the one created before it. */
  function Convert(t: TypeInfo, c: Context, hint: Option<string>, spell: Spelling): (r: Option<(TypeRef, Context)>)
    ensures r.Some? ==> c.objects.Keys <= r.value.1.objects.Keys
    decreases t, 1
  {
    match t
    case PrimitiveType(p) => (match ConvertPrimitive(p) case Some(r) => Some((r, c)) case None => None)
    case LiteralType(v) => Some((ConvertLiteral(v), c))
    case NamedType(name) => Some((TypeRef(Named(ToTypeName(name)), false), c.(referenced := c.referenced + {ToTypeName(name)})))
    case RefType(name) => Some((TypeRef(Named(ToTypeName(name)), false), c.(referenced := c.referenced + {ToTypeName(name)})))
    case ArrayType(items) =>
      (match Convert(items, c, hint, spell)
       case Some((inner, c')) => Some((TypeRef(ListOf(Render(inner)), false), c'))
       case None => None)
    case ObjectType(ps) =>
      if hint.None? || hint.value == [] then None
      else
        var name := ToTypeName(hint.value);
        (match AddFields(ps, |ps|, EnsureObject(c, hint.value), name, spell)
         case Some(c') => Some((TypeRef(Named(name), false), c'))
         case None => None)
    case UnionType(ts) => ConvertUnion(ts, c, hint, spell)
    case PromiseType(inner) => Convert(inner, c, hint, spell)
    case UnknownType => None
    case ScalarType(scalar, ref) => EnsureScalar(c, scalar, ref)
    case NamedUnionType(union, nullable, members) =>
      var name := ToTypeName(union);
      match ConvertMembers(members, |members|, c, spell)
      case None => None
      case Some((names, c')) =>
        if name in c'.unions && !SameMembers(c'.unions[name], names) then None
        else Some((TypeRef(Named(name), nullable), c'.(unions := c'.unions[name := names])))
  }

  /** addGraphqlField for the first `count` properties of an object in turn. */
  function AddFields(ps: seq<PropertyInfo>, count: nat, c: Context, object_: string, spell: Spelling): (r: Option<Context>)
    requires count <= |ps|
    ensures r.Some? ==> c.objects.Keys <= r.value.objects.Keys
    decreases ps, 1, count
  {
    if count == 0 then Some(c)
    else
      match AddFields(ps, count - 1, c, object_, spell)
      case None => None
      case Some(before) =>
        var p := ps[count - 1];
        AddField(before, object_, p, Some(object_ + ToPascalCase(p.name)), spell)
  }

  function AddField(c: Context, objectName: string, p: PropertyInfo, hint: Option<string>, spell: Spelling): (r: Option<Context>)
    ensures r.Some? ==> c.objects.Keys <= r.value.objects.Keys
    decreases p, 2
  {
    if IsBrand(p.name) then Some(c)
    else if !IsFieldName(p.name) then None
    else
      var object_ := ToTypeName(objectName);
      match Convert(p.type_, EnsureObject(c, objectName), hint, spell)
      case None => None
      case Some((r, c')) =>
        AddFieldDefinition(c', object_, p.name, Render(r.(nullable := r.nullable || p.optional)))
  }

  function ConvertUnion(ts: seq<TypeInfo>, c: Context, hint: Option<string>, spell: Spelling): (r: Option<(TypeRef, Context)>)
    ensures r.Some? ==> c.objects.Keys <= r.value.1.objects.Keys
    decreases ts, 0
  {
    var rest := NonNullish(ts);
    var nullable := |rest| != |ts|;
    match StringLiterals(rest)
    case Some(values) =>
      (match EnsureEnum(c, hint, values, spell)
       case Some((r, c')) => Some((r.(nullable := nullable), c'))
       case None => None)
    case None =>
      if |rest| == 1 then
        assert rest[0] in rest;
        match Convert(rest[0], c, hint, spell)
        case Some((r, c')) => Some((r.(nullable := r.nullable || nullable), c'))
        case None => None
      else None
  }

  /** The first `count` members of a named union, in turn. */
  function ConvertMembers(ms: seq<MemberInfo>, count: nat, c: Context, spell: Spelling): (r: Option<(seq<string>, Context)>)
    requires count <= |ms|
    ensures r.Some? ==> c.objects.Keys <= r.value.1.objects.Keys
    decreases ms, 1, count
  {
    if count == 0 then Some(([], c))
    else
      match ConvertMembers(ms, count - 1, c, spell)
      case None => None
      case Some((names, before)) =>
        match ConvertMember(ms[count - 1], before, spell)
        case None => None
        case Some((name, c')) => Some((names + [name], c'))
  }

  /** A member of a named union must turn out to be its own object type. */
  function ConvertMember(m: MemberInfo, c: Context, spell: Spelling): (r: Option<(string, Context)>)
    ensures r.Some? ==> c.objects.Keys <= r.value.1.objects.Keys
    decreases m, 2
  {
    var name := ToTypeName(m.name);
    match Convert(m.type_, c, Some(name), spell)
    case None => None
    case Some((r, c')) => if r.type_ != Named(name) || r.nullable || name !in c'.objects then None else Some((name, c'))
  }

  // ---------- printing ----------

  /** renderGraphqlDefinitions: every name referenced before its definition must by now be an object, enum or scalar. */
  predicate CanPrint(c: Context) {
    forall name :: name in c.referenced ==> name in c.objects || name in c.enums || name in c.scalars
  }

  predicate Printed(c: Context, name: string) {
    name in c.scalars || name in c.objects || name in c.enums || name in c.unions
  }
}
