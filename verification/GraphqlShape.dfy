/**
 Rendering descriptors to GraphQL types (packages/graphql/src/graphql-model-shape.lib.ts), and why
 comparing rendered types as strings compares the types themselves.
 */
module GraphqlShape {
  import opened Wrappers
  import opened GraphqlModel

  /** A type reference, section 2.11 of the GraphQL specification (October 2021). */
  datatype Type = Named(name: string) | ListOf(item: Type) | NonNull(inner: Type)

  function Print(t: Type): string {
    match t
    case Named(name) => name
    case ListOf(item) => "[" + Print(item) + "]"
    case NonNull(inner) => Print(inner) + "!"
  }

  predicate IsName(s: string) {
    s != [] && '!' !in s && '[' !in s && ']' !in s
  }

  predicate WellFormed(t: Type) {
    match t
    case Named(name) => IsName(name)
    case ListOf(item) => WellFormed(item)
    case NonNull(inner) => !inner.NonNull? && WellFormed(inner)
  }

  /** The first and last characters of a printed type tell its form. */
  lemma {:induction false} PrintEnds(t: Type)
    requires WellFormed(t)
    ensures var s := Print(t);
            && s != []
            && (s[|s| - 1] == '!' <==> t.NonNull?)
            && (!t.NonNull? ==> (s[0] == '[' <==> t.ListOf?))
  {
    match t
    case Named(name) => assert name[0] in name && name[|name| - 1] in name;
    case ListOf(item) =>
    case NonNull(inner) => PrintEnds(inner);
  }

  /** Two well-formed types print alike only if they are the same type. */
  lemma {:induction false} PrintInjective(t: Type, u: Type)
    requires WellFormed(t) && WellFormed(u) && Print(t) == Print(u)
    ensures t == u
  {
    PrintEnds(t);
    PrintEnds(u);
    if t.NonNull? {
      assert Print(t)[..|Print(t)| - 1] == Print(t.inner) && Print(u)[..|Print(u)| - 1] == Print(u.inner);
      PrintInjective(t.inner, u.inner);
    } else if t.ListOf? {
      assert Print(t)[1..|Print(t)| - 1] == Print(t.item) && Print(u)[1..|Print(u)| - 1] == Print(u.item);
      PrintInjective(t.item, u.item);
    }
  }

  // ---------- the renderer, on strings as the source has it ----------

  function NullableType(s: string, nullable: bool): string {
    if nullable && s != [] && s[|s| - 1] == '!' then s[..|s| - 1] else s
  }

  function ScalarType(name: ScalarName): string {
    match name
    case StringScalar => "String"
    case NumberScalar => "Float"
    case BooleanScalar => "Boolean"
  }

  /** None stands for the error thrown on opaque data. */
  function RenderValue(v: Value): Option<string> {
    match v
    case Opaque => None
    case Scalar(name) => Some(ScalarType(name) + "!")
    case Array(item) =>
      (match RenderValue(item)
       case Some(s) => Some("[" + s + "]!")
       case None => None)
    case Nullable(inner) =>
      (match RenderValue(inner)
       case Some(s) => Some(NullableType(s, true))
       case None => None)
    case Optional(inner) =>
      (match RenderValue(inner)
       case Some(s) => Some(NullableType(s, true))
       case None => None)
  }

  function RenderProperty(p: Property): Option<string> {
    if p.name == "id" then Some("ID!")
    else
      match RenderValue(p.value)
      case Some(s) => Some(NullableType(s, p.optional))
      case None => None
  }

  function RenderResult(target: string, shape: Shape): string {
    var inner := match shape
                 case One(_) => target + "!"
                 case Many(_, itemNullable) => "[" + NullableType(target + "!", itemNullable) + "]!";
    NullableType(inner, shape.nullable)
  }

  // ---------- the types those strings stand for ----------

  function Strip(t: Type, nullable: bool): Type {
    if nullable && t.NonNull? then t.inner else t
  }

  function ValueType(v: Value): Type
    requires IsPublic(v)
  {
    match v
    case Scalar(name) => NonNull(Named(ScalarType(name)))
    case Array(item) => NonNull(ListOf(ValueType(item)))
    case Nullable(inner) => Strip(ValueType(inner), true)
    case Optional(inner) => Strip(ValueType(inner), true)
  }

  function PropertyType(p: Property): Type
    requires IsPublic(p.value)
  {
    if p.name == "id" then NonNull(Named("ID")) else Strip(ValueType(p.value), p.optional)
  }

  function ResultType(target: string, shape: Shape): Type {
    var inner := match shape
                 case One(_) => NonNull(Named(target))
                 case Many(_, itemNullable) => NonNull(ListOf(Strip(NonNull(Named(target)), itemNullable)));
    Strip(inner, shape.nullable)
  }

  lemma StripPrints(t: Type, nullable: bool)
    requires WellFormed(t)
    ensures WellFormed(Strip(t, nullable)) && NullableType(Print(t), nullable) == Print(Strip(t, nullable))
  {
    PrintEnds(t);
    if t.NonNull? { assert (Print(t.inner) + "!")[..|Print(t.inner)|] == Print(t.inner); }
  }

  lemma {:induction false} RenderValuePrints(v: Value)
    ensures RenderValue(v).Some? <==> IsPublic(v)
    ensures IsPublic(v) ==> WellFormed(ValueType(v)) && RenderValue(v) == Some(Print(ValueType(v)))
  {
    match v
    case Opaque =>
    case Scalar(_) =>
    case Array(item) =>
      RenderValuePrints(item);
      if IsPublic(item) {
        assert Print(ValueType(v)) == ("[" + Print(ValueType(item)) + "]") + "!" == "[" + Print(ValueType(item)) + "]!";
      }
    case Nullable(inner) =>
      RenderValuePrints(inner);
      if IsPublic(inner) { StripPrints(ValueType(inner), true); }
    case Optional(inner) =>
      RenderValuePrints(inner);
      if IsPublic(inner) { StripPrints(ValueType(inner), true); }
  }

  lemma RenderPropertyPrints(p: Property)
    requires p.name != "id" || IsPublic(p.value)
    ensures RenderProperty(p).Some? <==> IsPublic(p.value)
    ensures IsPublic(p.value) ==> WellFormed(PropertyType(p)) && RenderProperty(p) == Some(Print(PropertyType(p)))
  {
    RenderValuePrints(p.value);
    assert "ID" + "!" == "ID!";
    if IsPublic(p.value) && p.name != "id" { StripPrints(ValueType(p.value), p.optional); }
  }

  lemma RenderResultPrints(target: string, shape: Shape)
    requires IsName(target)
    ensures WellFormed(ResultType(target, shape)) && RenderResult(target, shape) == Print(ResultType(target, shape))
  {
    var one := NonNull(Named(target));
    match shape
    case One(nullable) => StripPrints(one, nullable);
    case Many(nullable, itemNullable) =>
      StripPrints(one, itemNullable);
      var many := NonNull(ListOf(Strip(one, itemNullable)));
      assert Print(many) == "[" + Print(Strip(one, itemNullable)) + "]!";
      StripPrints(many, nullable);
  }

  /** A schema type that prints as a property renders is the property's type: the string comparison is exact. */
  lemma RenderedPropertyDeterminesType(p: Property, t: Type)
    requires WellFormed(t) && (p.name == "id" ==> IsPublic(p.value))
    ensures RenderProperty(p) == Some(Print(t)) <==> IsPublic(p.value) && t == PropertyType(p)
  {
    RenderPropertyPrints(p);
    if IsPublic(p.value) && Print(t) == Print(PropertyType(p)) { PrintInjective(t, PropertyType(p)); }
  }

  lemma RenderedResultDeterminesType(target: string, shape: Shape, t: Type)
    requires WellFormed(t) && IsName(target)
    ensures RenderResult(target, shape) == Print(t) <==> t == ResultType(target, shape)
  {
    RenderResultPrints(target, shape);
    if Print(t) == Print(ResultType(target, shape)) { PrintInjective(t, ResultType(target, shape)); }
  }
}
