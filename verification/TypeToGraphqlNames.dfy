/**
 The names a document defines (packages/graphql/src/type-to-graphql.lib.ts).  Objects, enums, scalars and
 unions are kept in tables of their own, so one normalised name may be defined in several of them; which
 names are is told from the converted types alone.
 */
module TypeToGraphqlNames {
  import opened Wrappers
  import opened TypeToGraphql
  import opened TypeToGraphqlProofs

  datatype Kind = ObjectKind | EnumKind | ScalarKind | UnionKind

  predicate Holds(c: Context, kind: Kind, name: string) {
    match kind
    case ObjectKind => name in c.objects
    case EnumKind => name in c.enums
    case ScalarKind => name in c.scalars
    case UnionKind => name in c.unions
  }

  // ---------- what a type defines ----------

  /** Converting the type defines the name as a thing of this kind. */
  predicate Defines(t: TypeInfo, hint: Option<string>, kind: Kind, name: string)
    decreases t, 1
  {
    match t
    case ArrayType(items) => Defines(items, hint, kind, name)
    case ObjectType(ps) =>
      var object_ := ToTypeName(if hint.Some? then hint.value else []);
      (kind.ObjectKind? && name == object_) || AnyField(ps, object_, kind, name)
    case UnionType(ts) => UnionDefines(ts, hint, kind, name)
    case PromiseType(inner) => Defines(inner, hint, kind, name)
    case ScalarType(scalar, _) => kind.ScalarKind? && name == ToTypeName(scalar)
    case NamedUnionType(union, _, ms) =>
      (kind.UnionKind? && name == ToTypeName(union)) || AnyMember(ms, kind, name)
    case _ => false
  }

  predicate AnyField(ps: seq<PropertyInfo>, object_: string, kind: Kind, name: string)
    decreases ps, 0
  {
    exists p :: p in ps && FieldDefines(p, object_, kind, name)
  }

  predicate AnyMember(ms: seq<MemberInfo>, kind: Kind, name: string)
    decreases ms, 0
  {
    exists m :: m in ms && MemberDefines(m, kind, name)
  }

  /** A property makes its object and whatever its own type defines. */
  predicate PropertyDefines(p: PropertyInfo, object_: string, hint: Option<string>, kind: Kind, name: string)
    decreases p, 2
  {
    !IsBrand(p.name) && ((kind.ObjectKind? && name == ToTypeName(object_)) || Defines(p.type_, hint, kind, name))
  }

  predicate FieldDefines(p: PropertyInfo, object_: string, kind: Kind, name: string)
    decreases p, 3
  {
    PropertyDefines(p, object_, Some(object_ + ToPascalCase(p.name)), kind, name)
  }

  predicate UnionDefines(ts: seq<TypeInfo>, hint: Option<string>, kind: Kind, name: string)
    decreases ts, 0
  {
    var rest := NonNullish(ts);
    if StringLiterals(rest).Some? then kind.EnumKind? && name == ToTypeName(if hint.Some? then hint.value else "GraphqlEnum")
    else exists t :: t in rest && Defines(t, hint, kind, name)
  }

  predicate MemberDefines(m: MemberInfo, kind: Kind, name: string)
    decreases m, 2
  {
    Defines(m.type_, Some(ToTypeName(m.name)), kind, name)
  }

  // ---------- a conversion adds exactly what its type defines ----------

  lemma {:induction false} ConvertAdds(t: TypeInfo, c: Context, hint: Option<string>,
                                       spell: Spelling, kind: Kind, name: string)
    requires Convert(t, c, hint, spell).Some?
    ensures Holds(Convert(t, c, hint, spell).value.1, kind, name) <==> Holds(c, kind, name) || Defines(t, hint, kind, name)
    decreases t, 1
  {
    match t
    case PrimitiveType(_) =>
    case LiteralType(_) =>
    case NamedType(_) =>
    case RefType(_) =>
    case ArrayType(items) => ConvertAdds(items, c, hint, spell, kind, name);
    case ObjectType(ps) => ObjectAdds(ps, c, hint, spell, kind, name);
    case UnionType(ts) => UnionAdds(ts, c, hint, spell, kind, name);
    case PromiseType(inner) => ConvertAdds(inner, c, hint, spell, kind, name);
    case UnknownType =>
    case ScalarType(_, _) =>
    case NamedUnionType(union, nullable, ms) => NamedUnionAdds(union, nullable, ms, c, hint, spell, kind, name);
  }

  lemma {:induction false} ObjectAdds(ps: seq<PropertyInfo>, c: Context, hint: Option<string>,
                                      spell: Spelling, kind: Kind, name: string)
    requires Convert(ObjectType(ps), c, hint, spell).Some?
    ensures Holds(Convert(ObjectType(ps), c, hint, spell).value.1, kind, name) <==>
            Holds(c, kind, name) || Defines(ObjectType(ps), hint, kind, name)
    decreases ps, 2
  {
    TypeNameIdempotent(hint.value);
    FieldsAdd(ps, |ps|, EnsureObject(c, hint.value), ToTypeName(hint.value), spell, kind, name);
    assert ps[..|ps|] == ps;
  }

  lemma OneMoreField(init: seq<PropertyInfo>, last: PropertyInfo, object_: string, kind: Kind, name: string)
    ensures AnyField(init + [last], object_, kind, name) <==>
            AnyField(init, object_, kind, name) || FieldDefines(last, object_, kind, name)
  {
    assert last in init + [last] && forall p :: p in init + [last] <==> p in init || p == last;
  }

  lemma OneMoreMember(ms: seq<MemberInfo>, count: nat, kind: Kind, name: string)
    requires 0 < count <= |ms|
    ensures AnyMember(ms[..count], kind, name) <==>
            AnyMember(ms[..count - 1], kind, name) || MemberDefines(ms[count - 1], kind, name)
  {
    var init, last := ms[..count - 1], ms[count - 1];
    assert ms[..count] == init + [last];
    assert last in init + [last] && forall m :: m in init + [last] <==> m in init || m == last;
  }

  lemma MembersUnfold(ms: seq<MemberInfo>, count: nat, c: Context, spell: Spelling)
    requires 0 < count <= |ms| && ConvertMembers(ms, count, c, spell).Some?
    ensures ConvertMembers(ms, count - 1, c, spell).Some?
    ensures var before := ConvertMembers(ms, count - 1, c, spell).value.1;
            && ConvertMember(ms[count - 1], before, spell).Some?
            && ConvertMembers(ms, count, c, spell).value.1 == ConvertMember(ms[count - 1], before, spell).value.1
  {
  }

  lemma {:induction false} FieldsAdd(ps: seq<PropertyInfo>, count: nat, c: Context, object_: string,
                                     spell: Spelling, kind: Kind, name: string)
    requires count <= |ps| && AddFields(ps, count, c, object_, spell).Some?
    ensures Holds(AddFields(ps, count, c, object_, spell).value, kind, name) <==>
            Holds(c, kind, name) || AnyField(ps[..count], object_, kind, name)
    decreases ps, 1, count
  {
    if count > 0 {
      var p := ps[count - 1];
      FieldsAdd(ps, count - 1, c, object_, spell, kind, name);
      var before := AddFields(ps, count - 1, c, object_, spell).value;
      PropertyAdds(p, before, object_, Some(object_ + ToPascalCase(p.name)), spell, kind, name);
      OneMoreField(ps[..count - 1], p, object_, kind, name);
      assert ps[..count] == ps[..count - 1] + [p];
    }
  }

  lemma {:induction false} PropertyAdds(p: PropertyInfo, c: Context, object_: string, hint: Option<string>,
                                        spell: Spelling, kind: Kind, name: string)
    requires AddField(c, object_, p, hint, spell).Some?
    ensures Holds(AddField(c, object_, p, hint, spell).value, kind, name) <==>
            Holds(c, kind, name) || PropertyDefines(p, object_, hint, kind, name)
    decreases p, 2
  {
    if !IsBrand(p.name) { ConvertAdds(p.type_, EnsureObject(c, object_), hint, spell, kind, name); }
  }

  lemma {:induction false} UnionAdds(ts: seq<TypeInfo>, c: Context, hint: Option<string>,
                                     spell: Spelling, kind: Kind, name: string)
    requires ConvertUnion(ts, c, hint, spell).Some?
    ensures Holds(ConvertUnion(ts, c, hint, spell).value.1, kind, name) <==> Holds(c, kind, name) || UnionDefines(ts, hint, kind, name)
    decreases ts, 0
  {
    var rest := NonNullish(ts);
    if StringLiterals(rest).None? {
      assert rest == [rest[0]];
      assert rest[0] in rest;
      ConvertAdds(rest[0], c, hint, spell, kind, name);
    }
  }

  lemma {:induction false} NamedUnionAdds(union: string, nullable: bool, ms: seq<MemberInfo>, c: Context, hint: Option<string>,
                                          spell: Spelling, kind: Kind, name: string)
    requires Convert(NamedUnionType(union, nullable, ms), c, hint, spell).Some?
    ensures Holds(Convert(NamedUnionType(union, nullable, ms), c, hint, spell).value.1, kind, name) <==>
            Holds(c, kind, name) || Defines(NamedUnionType(union, nullable, ms), hint, kind, name)
    decreases ms, 2
  {
    MembersAdd(ms, |ms|, c, spell, kind, name);
    assert ms[..|ms|] == ms;
  }

  lemma {:induction false} MemberAdds(m: MemberInfo, c: Context, spell: Spelling, kind: Kind, name: string)
    requires ConvertMember(m, c, spell).Some?
    ensures Holds(ConvertMember(m, c, spell).value.1, kind, name) <==> Holds(c, kind, name) || MemberDefines(m, kind, name)
    decreases m, 2
  {
    ConvertAdds(m.type_, c, Some(ToTypeName(m.name)), spell, kind, name);
  }

  lemma {:induction false} MembersAdd(ms: seq<MemberInfo>, count: nat, c: Context, spell: Spelling, kind: Kind, name: string)
    requires count <= |ms| && ConvertMembers(ms, count, c, spell).Some?
    ensures Holds(ConvertMembers(ms, count, c, spell).value.1, kind, name) <==>
            Holds(c, kind, name) || AnyMember(ms[..count], kind, name)
    decreases ms, 1, count
  {
    if count > 0 {
      MembersUnfold(ms, count, c, spell);
      MembersAdd(ms, count - 1, c, spell, kind, name);
      MemberAdds(ms[count - 1], ConvertMembers(ms, count - 1, c, spell).value.1, spell, kind, name);
      OneMoreMember(ms, count, kind, name);
    }
  }

  // ---------- whole documents ----------

  predicate UseDefines(u: Use, kind: Kind, name: string) {
    match u
    case ConvertUse(t, hint) => Defines(t, hint, kind, name)
    case FieldUse(object_, p, hint) => PropertyDefines(p, object_, hint, kind, name)
  }

  predicate AnyUse(uses: seq<Use>, kind: Kind, name: string) {
    exists u :: u in uses && UseDefines(u, kind, name)
  }

  lemma OneMoreUse(init: seq<Use>, last: Use, kind: Kind, name: string)
    ensures AnyUse(init + [last], kind, name) <==> AnyUse(init, kind, name) || UseDefines(last, kind, name)
  {
    assert last in init + [last] && forall u :: u in init + [last] <==> u in init || u == last;
  }

  /** After any successful uses, exactly the names their types define are defined, each in its kind. */
  lemma {:induction false} RunAdds(uses: seq<Use>, spell: Spelling, kind: Kind, name: string)
    requires Run(uses, spell).Some?
    ensures Holds(Run(uses, spell).value, kind, name) <==> AnyUse(uses, kind, name)
  {
    if uses != [] {
      var init, last := uses[..|uses| - 1], uses[|uses| - 1];
      var c := Run(init, spell).value;
      RunAdds(init, spell, kind, name);
      match last {
        case ConvertUse(t, hint) => ConvertAdds(t, c, hint, spell, kind, name);
        case FieldUse(object_, p, hint) => PropertyAdds(p, c, object_, hint, spell, kind, name);
      }
      OneMoreUse(init, last, kind, name);
      assert uses == init + [last];
    }
  }

  /** The names the GraphQL specification defines itself (section 3.5 of the October 2021 edition). */
  const SPECIFIED: set<string> := {"Int", "Float", "String", "Boolean", "ID"}

  /** How often a name is defined: by the specification, and once for each table that prints it. */
  function Definitions(c: Context, name: string): nat {
    (if name in SPECIFIED then 1 else 0) + (if name in c.scalars then 1 else 0) + (if name in c.objects then 1 else 0)
    + (if name in c.enums then 1 else 0) + (if name in c.unions then 1 else 0)
  }

  lemma DefinedOnceIff(c: Context, name: string)
    ensures (Printed(c, name) ==> Definitions(c, name) == 1) <==>
            && (forall kind :: Holds(c, kind, name) ==> name !in SPECIFIED)
            && (forall kind, other :: Holds(c, kind, name) && Holds(c, other, name) ==> kind == other)
  {
    assert forall kind :: Holds(c, kind, name) ==> Printed(c, name);
    assert name in c.objects <==> Holds(c, ObjectKind, name);
    assert name in c.enums <==> Holds(c, EnumKind, name);
    assert name in c.scalars <==> Holds(c, ScalarKind, name);
    assert name in c.unions <==> Holds(c, UnionKind, name);
  }

  /** No use defines a specified name, and no two uses define one name in different kinds. */
  ghost predicate Unambiguous(uses: seq<Use>) {
    forall name: string :: UnambiguousName(uses, name)
  }

  ghost predicate UnambiguousName(uses: seq<Use>, name: string) {
    && (forall kind :: AnyUse(uses, kind, name) ==> name !in SPECIFIED)
    && (forall kind, other :: AnyUse(uses, kind, name) && AnyUse(uses, other, name) ==> kind == other)
  }

  lemma NamePrintedOnceIff(uses: seq<Use>, spell: Spelling, name: string)
    requires Run(uses, spell).Some?
    ensures (Printed(Run(uses, spell).value, name) ==> Definitions(Run(uses, spell).value, name) == 1) <==>
            UnambiguousName(uses, name)
  {
    var c := Run(uses, spell).value;
    DefinedOnceIff(c, name);
    forall kind
      ensures Holds(c, kind, name) <==> AnyUse(uses, kind, name)
    {
      RunAdds(uses, spell, kind, name);
    }
  }

  /** Every printed name has exactly one definition if and only if the types used are unambiguous. */
  lemma PrintedOnceIff(uses: seq<Use>, spell: Spelling)
    requires Run(uses, spell).Some?
    ensures (forall name :: Printed(Run(uses, spell).value, name) ==> Definitions(Run(uses, spell).value, name) == 1) <==>
            Unambiguous(uses)
  {
    var c := Run(uses, spell).value;
    forall name
      ensures (Printed(c, name) ==> Definitions(c, name) == 1) <==> UnambiguousName(uses, name)
    {
      NamePrintedOnceIff(uses, spell, name);
    }
  }

  /** An object and an enum of one name are both accepted and both printed. */
  lemma ObjectAndEnumShareName(spell: Spelling)
    ensures var uses := [ConvertUse(ObjectType([]), Some("A")),
                         ConvertUse(UnionType([LiteralType(StringLiteral("x"))]), Some("a"))];
            && Run(uses, spell).Some?
            && Definitions(Run(uses, spell).value, "A") == 2 && CanPrint(Run(uses, spell).value)
  {
    var first := ConvertUse(ObjectType([]), Some("A"));
    var second := ConvertUse(UnionType([LiteralType(StringLiteral("x"))]), Some("a"));
    assert [first, second][..1] == [first] && [first][..0] == [];
    assert ToTypeName("A") == "A" == ToTypeName("a") by {
      assert "A"[1..] == [] && "a"[1..] == [];
    }
    assert Run([first], spell) == Some(EMPTY.(objects := map["A" := map[]]));
    OneLiteral("x");
  }

  lemma OneLiteral(s: string)
    ensures var ts := [LiteralType(StringLiteral(s))];
            NonNullish(ts) == ts && StringLiterals(ts) == Some([s])
  {
    var ts := [LiteralType(StringLiteral(s))];
    assert ts[1..] == [];
    assert [s] + [] == [s];
  }
}
