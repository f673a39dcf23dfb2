/**
 What holds after any sequence of conversions (packages/graphql/src/type-to-graphql.lib.ts): names are
 normalised once, definitions only grow, a field never changes its type, and whatever is printed names
 only types that exist.
 */
module TypeToGraphqlProofs {
  import opened Wrappers
  import opened GraphqlShape
  import opened TypeToGraphql

  // ---------- names ----------

  ghost predicate Alphanumeric(s: string) {
    forall i :: 0 <= i < |s| ==> IsAlphanumeric(s[i])
  }

  lemma {:induction false} JoinedWords(s: string, starting: bool)
    ensures var w := JoinWords(s, starting); Alphanumeric(w) && (starting && w != [] ==> !IsLower(w[0]))
  {
    if s == [] {
    } else if !IsAlphanumeric(s[0]) {
      JoinedWords(s[1..], true);
    } else {
      JoinedWords(s[1..], false);
    }
  }

  lemma {:induction false} OneWordStays(w: string)
    requires Alphanumeric(w)
    ensures JoinWords(w, false) == w
    ensures w != [] && !IsLower(w[0]) ==> JoinWords(w, true) == w
  {
    if w != [] { OneWordStays(w[1..]); }
  }

  /** Normalising a name twice is normalising it once, and the result is a GraphQL name that prints unambiguously. */
  lemma TypeNameIdempotent(s: string)
    ensures var n := ToTypeName(s); ToTypeName(n) == n && IsFieldName(n) && IsName(n)
  {
    JoinedWords(s, true);
    var p := ToPascalCase(s);
    OneWordStays(p);
    if !IsLetter(p[0]) {
      assert ("_" + p)[1..] == p;
      assert JoinWords("_" + p, true) == p;
    }
    var n := ToTypeName(s);
    assert forall i :: 0 < i < |n| ==> IsAlphanumeric(n[i]);
    FieldNameIsName(n);
  }

  lemma FieldNameIsName(n: string)
    requires IsFieldName(n)
    ensures IsName(n)
  {
    forall c | c in n ensures c != '!' && c != '[' && c != ']' {
      var i :| 0 <= i < |n| && n[i] == c;
    }
  }

  // ---------- what every conversion keeps ----------

  /** The named type a type reference is about. */
  function Base(t: Type): string {
    match t
    case Named(name) => name
    case ListOf(item) => Base(item)
    case NonNull(inner) => Base(inner)
  }

  const BUILT_IN: set<string> := {"String", "Float", "Boolean"}

  predicate Known(c: Context, name: string) {
    name in BUILT_IN || name in c.referenced || Printed(c, name)
  }

  ghost predicate FieldsStay(a: map<string, map<string, Type>>, b: map<string, map<string, Type>>) {
    forall o :: o in a ==> o in b && forall f :: f in a[o] ==> f in b[o] && b[o][f] == a[o][f]
  }

  ghost predicate Extends(c: Context, d: Context) {
    && FieldsStay(c.objects, d.objects)
    && c.enums.Keys <= d.enums.Keys
    && c.scalars.Keys <= d.scalars.Keys
    && c.unions.Keys <= d.unions.Keys
    && c.referenced <= d.referenced
  }

  /** Every field's type and every union's member is known. */
  ghost predicate Closed(c: Context) {
    && (forall o, f :: o in c.objects && f in c.objects[o] ==> Known(c, Base(c.objects[o][f])))
    && (forall u, name :: u in c.unions && name in c.unions[u] ==> name in c.objects)
  }

  ghost predicate Step(c: Context, d: Context) {
    Extends(c, d) && (Closed(c) ==> Closed(d))
  }

  lemma StepsCompose(c: Context, d: Context, e: Context)
    requires Step(c, d) && Step(d, e)
    ensures Step(c, e)
  {
  }

  lemma KnownStays(c: Context, d: Context, name: string)
    requires Extends(c, d) && Known(c, name)
    ensures Known(d, name)
  {
  }

  lemma ClosedGrows(c: Context, d: Context)
    requires Extends(c, d) && c.objects == d.objects && c.unions == d.unions
    ensures Step(c, d)
  {
    if Closed(c) {
      forall o, f | o in d.objects && f in d.objects[o] ensures Known(d, Base(d.objects[o][f])) {
        KnownStays(c, d, Base(d.objects[o][f]));
      }
    }
  }

  lemma EnsureObjectSteps(c: Context, name: string)
    ensures Step(c, EnsureObject(c, name))
    ensures ToTypeName(name) in EnsureObject(c, name).objects
  {
    var d := EnsureObject(c, name);
    assert Extends(c, d);
    if Closed(c) {
      forall o, f | o in d.objects && f in d.objects[o] ensures Known(d, Base(d.objects[o][f])) {
        KnownStays(c, d, Base(c.objects[o][f]));
      }
    }
  }

  lemma AddFieldDefinitionSteps(c: Context, object_: string, field: string, t: Type)
    requires object_ in c.objects && Known(c, Base(t)) && AddFieldDefinition(c, object_, field, t).Some?
    ensures var d := AddFieldDefinition(c, object_, field, t).value;
            Step(c, d) && object_ in d.objects && field in d.objects[object_] && d.objects[object_][field] == t
  {
    var d := AddFieldDefinition(c, object_, field, t).value;
    assert Extends(c, d);
    if Closed(c) {
      forall o, f | o in d.objects && f in d.objects[o] ensures Known(d, Base(d.objects[o][f])) {
        if o != object_ || f != field {
          KnownStays(c, d, Base(c.objects[o][f]));
        } else {
          KnownStays(c, d, Base(t));
        }
      }
    }
  }

  lemma EnsureEnumSteps(c: Context, hint: Option<string>, values: seq<string>, spell: Spelling)
    requires EnsureEnum(c, hint, values, spell).Some?
    ensures var (r, d) := EnsureEnum(c, hint, values, spell).value; Step(c, d) && Known(d, Base(r.type_))
  {
    ClosedGrows(c, EnsureEnum(c, hint, values, spell).value.1);
  }

  lemma EnsureScalarSteps(c: Context, scalar: string, ref: ScalarRef)
    requires EnsureScalar(c, scalar, ref).Some?
    ensures var (r, d) := EnsureScalar(c, scalar, ref).value; Step(c, d) && Known(d, Base(r.type_))
  {
    ClosedGrows(c, EnsureScalar(c, scalar, ref).value.1);
  }

  lemma UnionSteps(c: Context, name: string, members: seq<string>)
    requires forall m :: m in members ==> m in c.objects
    ensures Step(c, c.(unions := c.unions[name := members]))
  {
    var d := c.(unions := c.unions[name := members]);
    assert Extends(c, d);
    if Closed(c) {
      forall o, f | o in d.objects && f in d.objects[o] ensures Known(d, Base(d.objects[o][f])) {
        KnownStays(c, d, Base(c.objects[o][f]));
      }
    }
  }

  lemma BaseOfRender(r: TypeRef)
    ensures Base(Render(r)) == Base(r.type_)
  {
  }

  /**
   The type a conversion must arrive at, read off the TypeScript type alone: no definition made so far, and
   no name already taken, can change what a field's type is.
   */
  function RefOf(t: TypeInfo, hint: Option<string>): TypeRef
    decreases t
  {
    match t
    case PrimitiveType(p) => TypeRef(Named(if p.StringPrimitive? then "String" else if p.NumberPrimitive? then "Float" else "Boolean"), false)
    case LiteralType(v) => ConvertLiteral(v)
    case NamedType(name) => TypeRef(Named(ToTypeName(name)), false)
    case RefType(name) => TypeRef(Named(ToTypeName(name)), false)
    case ArrayType(items) => TypeRef(ListOf(Render(RefOf(items, hint))), false)
    case ObjectType(_) => TypeRef(Named(ToTypeName(if hint.Some? then hint.value else "")), false)
    case UnionType(ts) =>
      var rest := NonNullish(ts);
      var nullable := exists i :: 0 <= i < |ts| && IsNullish(ts[i]);
      if StringLiterals(rest).Some? then TypeRef(Named(ToTypeName(if hint.Some? then hint.value else "GraphqlEnum")), nullable)
      else
        assert rest != [] ==> rest[0] in rest;
        if rest == [] then TypeRef(Named(""), nullable)
        else var r := RefOf(rest[0], hint); r.(nullable := r.nullable || nullable)
    case PromiseType(inner) => RefOf(inner, hint)
    case UnknownType => TypeRef(Named(""), false)
    case ScalarType(scalar, _) => TypeRef(Named(ToTypeName(scalar)), false)
    case NamedUnionType(union, nullable, _) => TypeRef(Named(ToTypeName(union)), nullable)
  }

  lemma {:induction false} NonNullishDrops(ts: seq<TypeInfo>)
    ensures |NonNullish(ts)| != |ts| <==> exists i :: 0 <= i < |ts| && IsNullish(ts[i])
  {
    if ts != [] {
      NonNullishDrops(ts[1..]);
      if i :| 0 <= i < |ts| && IsNullish(ts[i]) {
        if i > 0 { assert IsNullish(ts[1..][i - 1]); }
      }
      if j :| 0 <= j < |ts[1..]| && IsNullish(ts[1..][j]) { assert IsNullish(ts[j + 1]); }
    }
  }

  /** A conversion only adds, and the reference it returns is the one its type calls for and is known by then. */
  lemma {:induction false} ConvertSteps(t: TypeInfo, c: Context, hint: Option<string>, spell: Spelling)
    requires Convert(t, c, hint, spell).Some?
    ensures var (r, d) := Convert(t, c, hint, spell).value; Step(c, d) && Known(d, Base(r.type_)) && r == RefOf(t, hint)
    decreases t, 1
  {
    match t
    case PrimitiveType(p) =>
    case LiteralType(v) =>
    case NamedType(name) => ClosedGrows(c, c.(referenced := c.referenced + {ToTypeName(name)}));
    case RefType(name) => ClosedGrows(c, c.(referenced := c.referenced + {ToTypeName(name)}));
    case ArrayType(items) =>
      ConvertSteps(items, c, hint, spell);
      BaseOfRender(Convert(items, c, hint, spell).value.0);
    case ObjectType(ps) =>
      var name := ToTypeName(hint.value);
      var e := EnsureObject(c, hint.value);
      EnsureObjectSteps(c, hint.value);
      AddFieldsSteps(ps, |ps|, e, name, spell);
      StepsCompose(c, e, AddFields(ps, |ps|, e, name, spell).value);
    case UnionType(ts) => ConvertUnionSteps(ts, c, hint, spell);
    case PromiseType(inner) => ConvertSteps(inner, c, hint, spell);
    case UnknownType =>
    case ScalarType(scalar, ref) => EnsureScalarSteps(c, scalar, ref);
    case NamedUnionType(union, nullable, members) =>
      ConvertMembersSteps(members, |members|, c, spell);
      var (names, e) := ConvertMembers(members, |members|, c, spell).value;
      UnionSteps(e, ToTypeName(union), names);
      StepsCompose(c, e, e.(unions := e.unions[ToTypeName(union) := names]));
  }

  lemma {:induction false} AddFieldsSteps(ps: seq<PropertyInfo>, count: nat, c: Context, object_: string, spell: Spelling)
    requires count <= |ps| && AddFields(ps, count, c, object_, spell).Some?
    ensures Step(c, AddFields(ps, count, c, object_, spell).value)
    decreases ps, 1, count
  {
    if count > 0 {
      AddFieldsSteps(ps, count - 1, c, object_, spell);
      var e := AddFields(ps, count - 1, c, object_, spell).value;
      var p := ps[count - 1];
      var hint := Some(object_ + ToPascalCase(p.name));
      AddFieldSteps(e, object_, p, hint, spell);
      StepsCompose(c, e, AddField(e, object_, p, hint, spell).value);
    }
  }

  /** How a property appears as a field. */
  function FieldType(p: PropertyInfo, hint: Option<string>): Type {
    var r := RefOf(p.type_, hint);
    Render(r.(nullable := r.nullable || p.optional))
  }

  ghost predicate HasField(c: Context, object_: string, p: PropertyInfo, hint: Option<string>) {
    object_ in c.objects && p.name in c.objects[object_] && c.objects[object_][p.name] == FieldType(p, hint)
  }

  lemma {:induction false} AddFieldSteps(c: Context, objectName: string, p: PropertyInfo, hint: Option<string>, spell: Spelling)
    requires AddField(c, objectName, p, hint, spell).Some?
    ensures var d := AddField(c, objectName, p, hint, spell).value;
            && Step(c, d)
            && (!IsBrand(p.name) ==> IsFieldName(p.name) && HasField(d, ToTypeName(objectName), p, hint))
    decreases p, 2
  {
    if !IsBrand(p.name) {
      var e := EnsureObject(c, objectName);
      EnsureObjectSteps(c, objectName);
      ConvertSteps(p.type_, e, hint, spell);
      var (r, e') := Convert(p.type_, e, hint, spell).value;
      var shown := r.(nullable := r.nullable || p.optional);
      BaseOfRender(shown);
      AddFieldDefinitionSteps(e', ToTypeName(objectName), p.name, Render(shown));
      var d := AddFieldDefinition(e', ToTypeName(objectName), p.name, Render(shown)).value;
      StepsCompose(c, e, e');
      StepsCompose(c, e', d);
    }
  }

  lemma {:induction false} ConvertUnionSteps(ts: seq<TypeInfo>, c: Context, hint: Option<string>, spell: Spelling)
    requires ConvertUnion(ts, c, hint, spell).Some?
    ensures var (r, d) := ConvertUnion(ts, c, hint, spell).value; Step(c, d) && Known(d, Base(r.type_)) && r == RefOf(UnionType(ts), hint)
    decreases ts, 0
  {
    var rest := NonNullish(ts);
    NonNullishDrops(ts);
    if StringLiterals(rest).Some? {
      EnsureEnumSteps(c, hint, StringLiterals(rest).value, spell);
    } else {
      assert rest[0] in rest;
      ConvertSteps(rest[0], c, hint, spell);
    }
  }

  lemma {:induction false} ConvertMembersSteps(ms: seq<MemberInfo>, count: nat, c: Context, spell: Spelling)
    requires count <= |ms| && ConvertMembers(ms, count, c, spell).Some?
    ensures var (names, d) := ConvertMembers(ms, count, c, spell).value; Step(c, d) && forall n :: n in names ==> n in d.objects
    decreases ms, 1, count
  {
    if count > 0 {
      ConvertMembersSteps(ms, count - 1, c, spell);
      var (names, before) := ConvertMembers(ms, count - 1, c, spell).value;
      var m := ms[count - 1];
      ConvertSteps(m.type_, before, Some(ToTypeName(m.name)), spell);
      StepsCompose(c, before, ConvertMember(m, before, spell).value.1);
    }
  }

  // ---------- which types can be converted ----------

  /** What the converter can express, told from the type alone. */
  predicate Supported(t: TypeInfo, hint: Option<string>)
    decreases t, 1
  {
    match t
    case PrimitiveType(p) => !p.NullPrimitive? && !p.UndefinedPrimitive?
    case ArrayType(items) => Supported(items, hint)
    case ObjectType(ps) => hint.Some? && hint.value != [] && forall p :: p in ps ==> FieldSupported(p, ToTypeName(hint.value))
    case UnionType(ts) => UnionSupported(ts, hint)
    case PromiseType(inner) => Supported(inner, hint)
    case UnknownType => false
    case NamedUnionType(_, _, ms) => forall m :: m in ms ==> MemberSupported(m)
    case _ => true
  }

  predicate FieldSupported(p: PropertyInfo, object_: string)
    decreases p, 0
  {
    IsBrand(p.name) || (IsFieldName(p.name) && Supported(p.type_, Some(object_ + ToPascalCase(p.name))))
  }

  predicate UnionSupported(ts: seq<TypeInfo>, hint: Option<string>)
    decreases ts, 0
  {
    var rest := NonNullish(ts);
    StringLiterals(rest).Some? || (|rest| == 1 && forall u :: u in rest ==> Supported(u, hint))
  }

  /** A member of a named union is a type of its own name. */
  predicate MemberSupported(m: MemberInfo)
    decreases m, 0
  {
    var name := ToTypeName(m.name);
    RefOf(m.type_, Some(name)) == TypeRef(Named(name), false) && Supported(m.type_, Some(name))
  }

  /** Registers nothing that an earlier definition could contradict. */
  predicate Plain(t: TypeInfo)
    decreases t
  {
    match t
    case ArrayType(items) => Plain(items)
    case ObjectType(_) => false
    case UnionType(ts) =>
      var rest := NonNullish(ts);
      StringLiterals(rest).None? && forall u :: u in rest ==> Plain(u)
    case PromiseType(inner) => Plain(inner)
    case ScalarType(_, _) => false
    case NamedUnionType(_, _, _) => false
    case _ => true
  }

  /** Only supported types are ever converted, and a plain type is converted exactly when it is supported. */
  lemma {:induction false} ConvertedIsSupported(t: TypeInfo, c: Context, hint: Option<string>, spell: Spelling)
    ensures Convert(t, c, hint, spell).Some? ==> Supported(t, hint)
    ensures Plain(t) && Supported(t, hint) ==> Convert(t, c, hint, spell).Some?
    decreases t, 1
  {
    match t
    case PrimitiveType(p) =>
    case LiteralType(_) =>
    case NamedType(_) =>
    case RefType(_) =>
    case ArrayType(items) => ConvertedIsSupported(items, c, hint, spell);
    case ObjectType(ps) =>
      if Convert(t, c, hint, spell).Some? {
        FieldsAreSupported(ps, |ps|, EnsureObject(c, hint.value), ToTypeName(hint.value), spell);
        assert ps[..|ps|] == ps;
      }
    case UnionType(ts) => UnionIsSupported(ts, c, hint, spell);
    case PromiseType(inner) => ConvertedIsSupported(inner, c, hint, spell);
    case UnknownType =>
    case ScalarType(_, _) =>
    case NamedUnionType(_, _, ms) =>
      if Convert(t, c, hint, spell).Some? {
        MembersAreSupported(ms, |ms|, c, spell);
        assert ms[..|ms|] == ms;
      }
  }

  lemma {:induction false} UnionIsSupported(ts: seq<TypeInfo>, c: Context, hint: Option<string>, spell: Spelling)
    ensures ConvertUnion(ts, c, hint, spell).Some? ==> UnionSupported(ts, hint)
    ensures Plain(UnionType(ts)) && UnionSupported(ts, hint) ==> ConvertUnion(ts, c, hint, spell).Some?
    decreases ts, 0
  {
    var rest := NonNullish(ts);
    if |rest| == 1 {
      assert rest == [rest[0]];
      assert rest[0] in rest;
      ConvertedIsSupported(rest[0], c, hint, spell);
    }
  }

  lemma {:induction false} FieldsAreSupported(ps: seq<PropertyInfo>, count: nat, c: Context, object_: string, spell: Spelling)
    requires count <= |ps| && AddFields(ps, count, c, object_, spell).Some?
    ensures forall p :: p in ps[..count] ==> FieldSupported(p, object_)
    decreases ps, 1, count
  {
    if count > 0 {
      FieldsAreSupported(ps, count - 1, c, object_, spell);
      FieldIsSupported(AddFields(ps, count - 1, c, object_, spell).value, object_, ps[count - 1], spell);
      assert ps[..count] == ps[..count - 1] + [ps[count - 1]];
    }
  }

  lemma {:induction false} FieldIsSupported(c: Context, object_: string, p: PropertyInfo, spell: Spelling)
    requires AddField(c, object_, p, Some(object_ + ToPascalCase(p.name)), spell).Some?
    ensures FieldSupported(p, object_)
    decreases p, 2
  {
    ConvertedIsSupported(p.type_, EnsureObject(c, object_), Some(object_ + ToPascalCase(p.name)), spell);
  }

  lemma {:induction false} MembersAreSupported(ms: seq<MemberInfo>, count: nat, c: Context, spell: Spelling)
    requires count <= |ms| && ConvertMembers(ms, count, c, spell).Some?
    ensures forall m :: m in ms[..count] ==> MemberSupported(m)
    decreases ms, 1, count
  {
    if count > 0 {
      MembersAreSupported(ms, count - 1, c, spell);
      MemberIsSupported(ms[count - 1], ConvertMembers(ms, count - 1, c, spell).value.1, spell);
      assert ms[..count] == ms[..count - 1] + [ms[count - 1]];
    }
  }

  lemma {:induction false} MemberIsSupported(m: MemberInfo, c: Context, spell: Spelling)
    requires ConvertMember(m, c, spell).Some?
    ensures MemberSupported(m)
    decreases m, 2
  {
    ConvertSteps(m.type_, c, Some(ToTypeName(m.name)), spell);
    ConvertedIsSupported(m.type_, c, Some(ToTypeName(m.name)), spell);
  }

  // ---------- an object's own fields ----------

  /** A converted object is returned under a name that holds a field, of the right type, for each of its properties. */
  lemma ObjectHoldsItsFields(ps: seq<PropertyInfo>, c: Context, name: string, spell: Spelling, i: nat)
    requires Convert(ObjectType(ps), c, Some(name), spell).Some? && i < |ps| && !IsBrand(ps[i].name)
    ensures var (r, d) := Convert(ObjectType(ps), c, Some(name), spell).value;
            var object_ := ToTypeName(name);
            r == TypeRef(Named(object_), false) && HasField(d, object_, ps[i], Some(object_ + ToPascalCase(ps[i].name)))
  {
    TypeNameIdempotent(name);
    FieldLands(ps, |ps|, EnsureObject(c, name), ToTypeName(name), spell, i);
  }

  lemma {:induction false} FieldLands(ps: seq<PropertyInfo>, count: nat, c: Context, object_: string, spell: Spelling, i: nat)
    requires ToTypeName(object_) == object_
    requires i < count <= |ps| && AddFields(ps, count, c, object_, spell).Some? && !IsBrand(ps[i].name)
    ensures HasField(AddFields(ps, count, c, object_, spell).value, object_, ps[i], Some(object_ + ToPascalCase(ps[i].name)))
    decreases count
  {
    var e := AddFields(ps, count - 1, c, object_, spell).value;
    var p := ps[count - 1];
    AddFieldSteps(e, object_, p, Some(object_ + ToPascalCase(p.name)), spell);
    if i < count - 1 {
      FieldLands(ps, count - 1, c, object_, spell, i);
      HasFieldStays(e, AddFields(ps, count, c, object_, spell).value, object_, ps[i], Some(object_ + ToPascalCase(ps[i].name)));
    }
  }

  lemma HasFieldStays(c: Context, d: Context, object_: string, p: PropertyInfo, hint: Option<string>)
    requires Extends(c, d) && HasField(c, object_, p, hint)
    ensures HasField(d, object_, p, hint)
  {
  }

  // ---------- whole sequences ----------

  /** One use of the context: converting an operation's type, or adding a field to Query or Mutation. */
  datatype Use = ConvertUse(t: TypeInfo, hint: Option<string>) | FieldUse(object_: string, p: PropertyInfo, hint: Option<string>)

  function Apply(u: Use, c: Context, spell: Spelling): Option<Context> {
    match u
    case ConvertUse(t, hint) => (match Convert(t, c, hint, spell) case Some((_, d)) => Some(d) case None => None)
    case FieldUse(object_, p, hint) => AddField(c, object_, p, hint, spell)
  }

  function Run(uses: seq<Use>, spell: Spelling): Option<Context> {
    if uses == [] then Some(EMPTY)
    else
      match Run(uses[..|uses| - 1], spell)
      case None => None
      case Some(c) => Apply(uses[|uses| - 1], c, spell)
  }

  lemma {:induction false} RunCloses(uses: seq<Use>, spell: Spelling)
    requires Run(uses, spell).Some?
    ensures Closed(Run(uses, spell).value)
  {
    if uses != [] {
      var n := |uses| - 1;
      RunCloses(uses[..n], spell);
      ApplySteps(uses[n], Run(uses[..n], spell).value, spell);
    }
  }

  lemma ApplySteps(u: Use, c: Context, spell: Spelling)
    requires Apply(u, c, spell).Some?
    ensures Step(c, Apply(u, c, spell).value)
  {
    match u
    case ConvertUse(t, hint) => ConvertSteps(t, c, hint, spell);
    case FieldUse(object_, p, hint) => AddFieldSteps(c, object_, p, hint, spell);
  }

  /** No field once added ever changes its type, whatever is converted afterwards. */
  lemma {:induction false} FieldsNeverChange(uses: seq<Use>, k: nat, spell: Spelling)
    requires k <= |uses| && Run(uses, spell).Some?
    ensures Run(uses[..k], spell).Some? && Extends(Run(uses[..k], spell).value, Run(uses, spell).value)
  {
    if k == |uses| {
      assert uses[..k] == uses;
    } else {
      var n := |uses| - 1;
      FieldsNeverChange(uses[..n], k, spell);
      assert uses[..n][..k] == uses[..k];
      ApplySteps(uses[n], Run(uses[..n], spell).value, spell);
    }
  }

  /** After any successful uses, if printing is not refused, every type a printed field or union names is built in or printed. */
  lemma PrintedNamesExist(uses: seq<Use>, spell: Spelling)
    requires Run(uses, spell).Some? && CanPrint(Run(uses, spell).value)
    ensures var c := Run(uses, spell).value;
            && (forall o, f :: o in c.objects && f in c.objects[o] ==>
                  Base(c.objects[o][f]) in BUILT_IN || Printed(c, Base(c.objects[o][f])))
            && (forall u, m :: u in c.unions && m in c.unions[u] ==> m in c.objects)
  {
    RunCloses(uses, spell);
  }

  lemma ConvertedIsKnown(uses: seq<Use>, k: nat, spell: Spelling)
    requires k < |uses| && uses[k].ConvertUse? && Run(uses[..k + 1], spell).Some?
    ensures Known(Run(uses[..k + 1], spell).value, Base(RefOf(uses[k].t, uses[k].hint).type_))
  {
    assert uses[..k + 1][..k] == uses[..k];
    ConvertSteps(uses[k].t, Run(uses[..k], spell).value, uses[k].hint, spell);
  }

  /** And so is the type each converted operation was given. */
  lemma ReturnedNamesExist(uses: seq<Use>, k: nat, spell: Spelling)
    requires k < |uses| && uses[k].ConvertUse? && Run(uses, spell).Some? && CanPrint(Run(uses, spell).value)
    ensures var name := Base(RefOf(uses[k].t, uses[k].hint).type_);
            name in BUILT_IN || Printed(Run(uses, spell).value, name)
  {
    FieldsNeverChange(uses, k + 1, spell);
    ConvertedIsKnown(uses, k, spell);
    KnownStays(Run(uses[..k + 1], spell).value, Run(uses, spell).value, Base(RefOf(uses[k].t, uses[k].hint).type_));
  }
}
