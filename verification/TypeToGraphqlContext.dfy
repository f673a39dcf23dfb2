/**
 The context as the source keeps it (packages/graphql/src/type-to-graphql.lib.ts): maps written in place by
 mutually recursive conversions.  Each method either throws (None) exactly when the specification does, or
 leaves the context the specification computes.
 */
module TypeToGraphqlContext {
  import opened Wrappers
  import opened GraphqlShape
  import Spec = TypeToGraphql
  import opened TypeToGraphql

  class GraphqlTypeContext {
    const spell: Spelling
    var objects: map<string, map<string, Type>>
    var enums: map<string, seq<string>>
    var scalars: map<string, ScalarRef>
    var unions: map<string, seq<string>>
    var referencedTypes: set<string>

    function State(): Context
      reads this
    {
      Context(objects, enums, scalars, unions, referencedTypes)
    }

    constructor (spell: Spelling)
      ensures State() == EMPTY && this.spell == spell
    {
      this.spell := spell;
      objects, enums, scalars, unions, referencedTypes := map[], map[], map[], map[], {};
    }

    /** What a converting method must have done, given what the specification says. */
    ghost predicate Did(spec: Option<(TypeRef, Context)>, r: Option<TypeRef>)
      reads this
    {
      match spec
      case None => r.None?
      case Some((ref, c)) => r == Some(ref) && State() == c
    }

    ghost predicate DidAll(spec: Option<Context>, ok: bool)
      reads this
    {
      ok == spec.Some? && (ok ==> State() == spec.value)
    }

    method EnsureEnum(hint: Option<string>, values: seq<string>) returns (r: Option<TypeRef>)
      modifies this
      ensures Did(Spec.EnsureEnum(old(State()), hint, values, spell), r)
    {
      var name := ToTypeName(if hint.Some? then hint.value else "GraphqlEnum");
      var enumValues := seq(|values|, i requires 0 <= i < |values| => spell(values[i]));
      if name in enums {
        var sameSet := SameMembers(enums[name], enumValues);
        if !sameSet { return None; }
      }
      enums := enums[name := enumValues];
      return Some(TypeRef(Named(name), false));
    }

    method EnsureObject(name: string) returns (object_: string)
      modifies this
      ensures State() == Spec.EnsureObject(old(State()), name) && object_ == ToTypeName(name) && object_ in objects
    {
      object_ := ToTypeName(name);
      if object_ !in objects {
        objects := objects[object_ := map[]];
      }
    }

    method EnsureScalar(scalar: string, ref: ScalarRef) returns (r: Option<TypeRef>)
      modifies this
      ensures Did(Spec.EnsureScalar(old(State()), scalar, ref), r)
    {
      var name := ToTypeName(scalar);
      if name in scalars {
        if scalars[name].modulePath != ref.modulePath || scalars[name].exportName != ref.exportName { return None; }
      }
      scalars := scalars[name := ref];
      return Some(TypeRef(Named(name), false));
    }

    method AddFieldDefinition(object_: string, field: string, t: Type) returns (ok: bool)
      requires object_ in objects
      modifies this
      ensures DidAll(Spec.AddFieldDefinition(old(State()), object_, field, t), ok)
    {
      if field in objects[object_] {
        if objects[object_][field] != t { return false; }
      }
      objects := objects[object_ := objects[object_][field := t]];
      return true;
    }

    method Convert(t: TypeInfo, hint: Option<string>) returns (r: Option<TypeRef>)
      modifies this
      ensures Did(Spec.Convert(t, old(State()), hint, spell), r)
      decreases t, 1
    {
      match t {
        case PrimitiveType(p) => r := ConvertPrimitive(p);
        case LiteralType(v) => r := Some(ConvertLiteral(v));
        case NamedType(name) =>
          referencedTypes := referencedTypes + {ToTypeName(name)};
          r := Some(TypeRef(Named(ToTypeName(name)), false));
        case RefType(name) =>
          referencedTypes := referencedTypes + {ToTypeName(name)};
          r := Some(TypeRef(Named(ToTypeName(name)), false));
        case ArrayType(items) =>
          var inner := Convert(items, hint);
          r := if inner.Some? then Some(TypeRef(ListOf(Render(inner.value)), false)) else None;
        case ObjectType(properties) => r := ConvertObject(properties, hint);
        case UnionType(types) => r := ConvertUnion(types, hint);
        case PromiseType(inner) => r := Convert(inner, hint);
        case UnknownType => r := None;
        case ScalarType(scalar, ref) => r := EnsureScalar(scalar, ref);
        case NamedUnionType(union, nullable, members) => r := EnsureNamedUnion(union, nullable, members);
      }
    }

    method ConvertObject(properties: seq<PropertyInfo>, hint: Option<string>) returns (r: Option<TypeRef>)
      modifies this
      ensures Did(Spec.Convert(ObjectType(properties), old(State()), hint, spell), r)
      decreases properties, 2
    {
      if hint.None? || hint.value == "" { return None; }
      var object_ := EnsureObject(hint.value);
      ghost var created := State();
      var i := 0;
      while i < |properties|
        invariant 0 <= i <= |properties|
        invariant AddFields(properties, i, created, object_, spell) == Some(State())
      {
        var p := properties[i];
        var ok := AddGraphqlField(object_, p, Some(object_ + ToPascalCase(p.name)));
        if !ok {
          FailureStays(properties, i + 1, created, object_, spell);
          return None;
        }
        i := i + 1;
      }
      return Some(TypeRef(Named(object_), false));
    }

    method AddGraphqlField(objectName: string, p: PropertyInfo, hint: Option<string>) returns (ok: bool)
      modifies this
      ensures DidAll(Spec.AddField(old(State()), objectName, p, hint, spell), ok)
      decreases p, 2
    {
      if IsBrand(p.name) { return true; }
      if !IsFieldName(p.name) { return false; }
      var object_ := EnsureObject(objectName);
      var ref := Convert(p.type_, hint);
      if ref.None? { return false; }
      var shown := ref.value.(nullable := ref.value.nullable || p.optional);
      ok := AddFieldDefinition(object_, p.name, Render(shown));
    }

    method ConvertUnion(types: seq<TypeInfo>, hint: Option<string>) returns (r: Option<TypeRef>)
      modifies this
      ensures Did(Spec.ConvertUnion(types, old(State()), hint, spell), r)
      decreases types, 0
    {
      var rest := NonNullish(types);
      var nullable := |rest| != |types|;
      var values := StringLiterals(rest);
      if values.Some? {
        var e := EnsureEnum(hint, values.value);
        return if e.Some? then Some(e.value.(nullable := nullable)) else None;
      }
      if |rest| != 1 { return None; }
      assert rest[0] in rest;
      var inner := Convert(rest[0], hint);
      return if inner.Some? then Some(inner.value.(nullable := inner.value.nullable || nullable)) else None;
    }

    method EnsureNamedUnion(union: string, nullable: bool, members: seq<MemberInfo>) returns (r: Option<TypeRef>)
      modifies this
      ensures Did(Spec.Convert(NamedUnionType(union, nullable, members), old(State()), None, spell), r)
      decreases members, 3
    {
      var names := RegisterMembers(members);
      if names.None? { return None; }
      var ok := SetUnion(ToTypeName(union), names.value);
      return if ok then Some(TypeRef(Named(ToTypeName(union)), nullable)) else None;
    }

    method RegisterMembers(members: seq<MemberInfo>) returns (names: Option<seq<string>>)
      modifies this
      ensures match ConvertMembers(members, |members|, old(State()), spell)
              case None => names.None?
              case Some((ns, c)) => names == Some(ns) && State() == c
      decreases members, 2
    {
      ghost var start := State();
      var registered := [];
      var i := 0;
      while i < |members|
        invariant 0 <= i <= |members|
        invariant ConvertMembers(members, i, start, spell) == Some((registered, State()))
      {
        var name := RegisterMember(members[i]);
        if name.None? {
          MemberFailureStays(members, i + 1, start, spell);
          return None;
        }
        registered := registered + [name.value];
        i := i + 1;
      }
      return Some(registered);
    }

    method RegisterMember(member: MemberInfo) returns (name: Option<string>)
      modifies this
      ensures match ConvertMember(member, old(State()), spell)
              case None => name.None?
              case Some((n, c)) => name == Some(n) && State() == c
      decreases member, 2
    {
      var objectName := ToTypeName(member.name);
      var ref := Convert(member.type_, Some(objectName));
      if ref.None? || ref.value.type_ != Named(objectName) || ref.value.nullable || objectName !in objects { return None; }
      return Some(objectName);
    }

    method SetUnion(unionName: string, names: seq<string>) returns (ok: bool)
      modifies this
      ensures ok <==> !(unionName in old(unions) && !SameMembers(old(unions[unionName]), names))
      ensures ok ==> State() == old(State()).(unions := old(unions)[unionName := names])
    {
      if unionName in unions {
        var sameSet := SameMembers(unions[unionName], names);
        if !sameSet { return false; }
      }
      unions := unions[unionName := names];
      return true;
    }
  }

  lemma {:induction false} FailureStays(ps: seq<PropertyInfo>, count: nat, c: Context, object_: string, spell: Spelling)
    requires count <= |ps| && AddFields(ps, count, c, object_, spell).None?
    ensures AddFields(ps, |ps|, c, object_, spell).None?
    decreases |ps| - count
  {
    if count < |ps| { FailureStays(ps, count + 1, c, object_, spell); }
  }

  lemma {:induction false} MemberFailureStays(ms: seq<MemberInfo>, count: nat, c: Context, spell: Spelling)
    requires count <= |ms| && ConvertMembers(ms, count, c, spell).None?
    ensures ConvertMembers(ms, |ms|, c, spell).None?
    decreases |ms| - count
  {
    if count < |ms| { MemberFailureStays(ms, count + 1, c, spell); }
  }
}
