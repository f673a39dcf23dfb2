/** The JSON Schema compiler preserves meaning, and where it does not. */
module JsonSchemaProofs {
  import opened Wrappers
  import Sequences
  import opened JsonData
  import opened JsonSchemas

  predicate DistinctVisible(ps: seq<PropertyInfo>) {
    forall i, j :: 0 <= i < j < |ps| && !IsBrand(ps[i].name) && !IsBrand(ps[j].name) ==> ps[i].name != ps[j].name
  }

  /**
   The types compiled faithfully: `undefined` only as one alternative of a union that has another,
   and no property named `__proto__`.
   */
  predicate Compilable(t: TypeInfo)
    decreases t
  {
    match t
    case PrimitiveType(p) => !p.UndefinedPrimitive?
    case ArrayType(items) => Compilable(items)
    case ObjectType(ps) =>
      if TypedResponseData(ps).Some? then
        var data := TypedResponseData(ps).value;
        assert exists i :: 0 <= i < |ps| && data == ps[i].type_;
        Compilable(data)
      else
        DistinctVisible(ps) &&
        forall i :: 0 <= i < |ps| && !IsBrand(ps[i].name) ==> ps[i].name != "__proto__" && Compilable(ps[i].type_)
    case UnionType(ts) =>
      && (exists t :: t in ts && !IsUndefined(t))
      && (forall i :: 0 <= i < |ts| && !IsUndefined(ts[i]) ==> Compilable(ts[i]))
    case PromiseType(inner) => Compilable(inner)
    case _ => true
  }

  // ---------- properties ----------

  lemma {:induction false} OnlyVisibleProperties(ps: seq<PropertyInfo>, count: nat, k: string)
    requires count <= |ps| && k in ConvertProperties(ps, count)
    ensures k != "__proto__" && exists i :: 0 <= i < count && !IsBrand(ps[i].name) && ps[i].name == k
  {
    var p := ps[count - 1];
    if IsBrand(p.name) || p.name != k || k == "__proto__" { OnlyVisibleProperties(ps, count - 1, k); }
  }

  lemma {:induction false} PropertiesHold(ps: seq<PropertyInfo>, count: nat)
    requires count <= |ps| && DistinctVisible(ps)
    ensures forall i :: 0 <= i < count && !IsBrand(ps[i].name) && ps[i].name != "__proto__" ==>
              ps[i].name in ConvertProperties(ps, count) && ConvertProperties(ps, count)[ps[i].name] == Convert(ps[i].type_)
  {
    if count > 0 { PropertiesHold(ps, count - 1); }
  }

  lemma {:induction false} RequiredHolds(ps: seq<PropertyInfo>, count: nat)
    requires count <= |ps|
    ensures forall k :: k in Required(ps, count) <==>
                        exists i :: 0 <= i < count && !IsBrand(ps[i].name) && !ps[i].optional && ps[i].name == k
  {
    if count > 0 { RequiredHolds(ps, count - 1); }
  }

  // ---------- nullable folding ----------

  /** A schema with a plain type keyword carries nothing that would refuse null on another ground. */
  predicate Foldable(s: Schema) {
    s.type_.OneType? ==> s.const_.None? && s.anyOf == [] && s.ref.None?
  }

  lemma {:induction false} ConvertIsFoldable(t: TypeInfo)
    ensures Foldable(Convert(t))
    decreases t
  {
    match t
    case ObjectType(ps) =>
      if TypedResponseData(ps).Some? {
        var i :| 0 <= i < |ps| && TypedResponseData(ps).value == ps[i].type_;
        ConvertIsFoldable(ps[i].type_);
      }
    case UnionType(ts) =>
      var defined := WithoutUndefined(ts);
      if |defined| == 1 { assert defined[0] in defined; ConvertIsFoldable(defined[0]); }
      else if |defined| > 1 && |WithoutNull(defined)| == 1 {
        assert WithoutNull(defined)[0] in WithoutNull(defined);
        ConvertIsFoldable(WithoutNull(defined)[0]);
      }
    case PromiseType(inner) => ConvertIsFoldable(inner);
    case _ =>
  }

  /** The nullable form of a schema accepts null and whatever the schema accepts. */
  lemma NullableValidates(v: Json, inner: Schema, defs: Definitions)
    requires Foldable(inner)
    ensures Validates(v, Nullable(inner), defs) <==> v.JNull? || Validates(v, inner, defs)
  {
    if inner.type_.OneType? {
      var folded := Nullable(inner);
      assert folded.items == inner.items && folded.properties == inner.properties && folded.required == inner.required;
    } else {
      var both := Nullable(inner).anyOf;
      assert both[0] == inner && both[1] == ANYTHING.(type_ := OneType("null"));
    }
  }

  // ---------- the compiler preserves meaning ----------

  lemma ObjectFaithful(v: Json, ps: seq<PropertyInfo>, defs: Definitions)
    requires TypedResponseData(ps).None? && Compilable(ObjectType(ps))
    requires v.JObject? ==> forall i :: 0 <= i < |ps| && !IsBrand(ps[i].name) && ps[i].name in v.fields ==>
               (Inhabits(v.fields[ps[i].name], ps[i].type_, defs) <==>
                Validates(v.fields[ps[i].name], Convert(ps[i].type_), defs))
    ensures Inhabits(v, ObjectType(ps), defs) <==> Validates(v, Convert(ObjectType(ps)), defs)
  {
    PropertiesHold(ps, |ps|);
    forall k | k in ConvertProperties(ps, |ps|)
      ensures exists i :: 0 <= i < |ps| && !IsBrand(ps[i].name) && ps[i].name == k
    {
      OnlyVisibleProperties(ps, |ps|, k);
    }
    RequiredHolds(ps, |ps|);
  }

  /** One schema of the emitted anyOf for each alternative. */
  lemma AlternativesFaithful(v: Json, ts: seq<TypeInfo>, schemas: seq<Schema>, defs: Definitions)
    requires ts != [] && |schemas| == |ts|
    requires forall i :: 0 <= i < |ts| ==> (Inhabits(v, ts[i], defs) <==> Validates(v, schemas[i], defs))
    ensures Inhabits(v, UnionType(ts), defs) <==> Validates(v, ANYTHING.(anyOf := schemas), defs)
  {
  }

  /** undefined adds no JSON value to a union. */
  lemma UndefinedAddsNothing(v: Json, ts: seq<TypeInfo>, defs: Definitions)
    ensures Inhabits(v, UnionType(ts), defs) <==> Inhabits(v, UnionType(WithoutUndefined(ts)), defs)
  {
    var defined := WithoutUndefined(ts);
    if i :| 0 <= i < |ts| && Inhabits(v, ts[i], defs) {
      assert !IsUndefined(ts[i]);
      AlternativeInhabits(v, defined, ts[i], defs);
    }
    if i :| 0 <= i < |defined| && Inhabits(v, defined[i], defs) {
      assert defined[i] in defined;
      AlternativeInhabits(v, ts, defined[i], defs);
    }
  }

  /** null and one other alternative: null, or what the other allows. */
  lemma NullableMeaning(v: Json, ts: seq<TypeInfo>, base: TypeInfo, defs: Definitions)
    requires WithoutNull(ts) == [base] && |ts| != 1
    ensures Inhabits(v, UnionType(ts), defs) <==> v.JNull? || Inhabits(v, base, defs)
  {
    assert base in WithoutNull(ts);
    if v.JNull? {
      var none :| none in ts && IsNull(none);
      AlternativeInhabits(v, ts, none, defs);
    }
    if Inhabits(v, base, defs) { AlternativeInhabits(v, ts, base, defs); }
    if i :| 0 <= i < |ts| && Inhabits(v, ts[i], defs) {
      if !IsNull(ts[i]) { assert ts[i] in WithoutNull(ts); }
    }
  }

  lemma AlternativeInhabits(v: Json, ts: seq<TypeInfo>, t: TypeInfo, defs: Definitions)
    requires t in ts && (Inhabits(v, t, defs) || (v.JNull? && IsNull(t)))
    ensures Inhabits(v, UnionType(ts), defs)
  {
    var i :| 0 <= i < |ts| && ts[i] == t;
    assert Inhabits(v, ts[i], defs);
  }

  lemma FoldedFaithful(v: Json, ts: seq<TypeInfo>, base: TypeInfo, defs: Definitions)
    requires WithoutNull(ts) == [base] && |ts| != 1
    requires Inhabits(v, base, defs) <==> Validates(v, Convert(base), defs)
    ensures Inhabits(v, UnionType(ts), defs) <==> Validates(v, Nullable(Convert(base)), defs)
  {
    NullableMeaning(v, ts, base, defs);
    ConvertIsFoldable(base);
    NullableValidates(v, Convert(base), defs);
  }

  /** What ConvertUnion emits, by the number and kind of the alternatives that are left. */
  lemma UnionForms(ts: seq<TypeInfo>)
    ensures var defined := WithoutUndefined(ts);
            var nonNull := WithoutNull(defined);
            var s := ConvertUnion(ts);
            && (|defined| == 1 ==> s == Convert(defined[0]))
            && (|defined| > 1 && |nonNull| == 1 ==> s == Nullable(Convert(nonNull[0])))
            && (|defined| > 1 && |nonNull| != 1 ==>
                  && |s.anyOf| == |defined| && s == ANYTHING.(anyOf := s.anyOf)
                  && forall i :: 0 <= i < |defined| ==> s.anyOf[i] == Convert(defined[i]))
  {
  }

  lemma FoldedUnionFaithful(v: Json, ts: seq<TypeInfo>, defs: Definitions)
    requires |WithoutUndefined(ts)| > 1 && |WithoutNull(WithoutUndefined(ts))| == 1
    requires forall t :: t in WithoutUndefined(ts) ==> (Inhabits(v, t, defs) <==> Validates(v, Convert(t), defs))
    ensures Inhabits(v, UnionType(WithoutUndefined(ts)), defs) <==> Validates(v, ConvertUnion(ts), defs)
  {
    UnionForms(ts);
    var nonNull := WithoutNull(WithoutUndefined(ts));
    assert nonNull[0] in nonNull && nonNull == [nonNull[0]];
    FoldedFaithful(v, WithoutUndefined(ts), nonNull[0], defs);
  }

  lemma AnyOfUnionFaithful(v: Json, ts: seq<TypeInfo>, defs: Definitions)
    requires |WithoutUndefined(ts)| > 1 && |WithoutNull(WithoutUndefined(ts))| != 1
    requires forall t :: t in WithoutUndefined(ts) ==> (Inhabits(v, t, defs) <==> Validates(v, Convert(t), defs))
    ensures Inhabits(v, UnionType(WithoutUndefined(ts)), defs) <==> Validates(v, ConvertUnion(ts), defs)
  {
    UnionForms(ts);
    var defined := WithoutUndefined(ts);
    assert forall i :: 0 <= i < |defined| ==> defined[i] in defined;
    AlternativesFaithful(v, defined, ConvertUnion(ts).anyOf, defs);
  }

  lemma UnionFaithful(v: Json, ts: seq<TypeInfo>, defs: Definitions)
    requires exists t :: t in ts && !IsUndefined(t)
    requires forall t :: t in WithoutUndefined(ts) ==> (Inhabits(v, t, defs) <==> Validates(v, Convert(t), defs))
    ensures Inhabits(v, UnionType(ts), defs) <==> Validates(v, ConvertUnion(ts), defs)
  {
    UndefinedAddsNothing(v, ts, defs);
    var defined := WithoutUndefined(ts);
    var present :| present in ts && !IsUndefined(present);
    assert present in defined && defined[0] in defined;
    if |defined| == 1 {
      UnionForms(ts);
      assert Inhabits(v, UnionType(defined), defs) <==> Inhabits(v, defined[0], defs);
    } else if |WithoutNull(defined)| == 1 {
      FoldedUnionFaithful(v, ts, defs);
    } else {
      AnyOfUnionFaithful(v, ts, defs);
    }
  }

  lemma LeafFaithful(v: Json, t: TypeInfo, defs: Definitions)
    requires Compilable(t) && (t.PrimitiveType? || t.LiteralType? || t.NamedType? || t.RefType? || t.UnknownType?)
    ensures Inhabits(v, t, defs) <==> Validates(v, Convert(t), defs)
  {
  }

  lemma {:induction false} ObjectCase(v: Json, t: TypeInfo, defs: Definitions)
    requires t.ObjectType? && Compilable(t)
    ensures Inhabits(v, t, defs) <==> Validates(v, Convert(t), defs)
    decreases t, 0
  {
    var ps := t.properties;
    if TypedResponseData(ps).Some? {
      var i :| 0 <= i < |ps| && TypedResponseData(ps).value == ps[i].type_;
      ConvertFaithful(v, ps[i].type_, defs);
    } else {
      if v.JObject? {
        forall i | 0 <= i < |ps| && !IsBrand(ps[i].name) && ps[i].name in v.fields
          ensures Inhabits(v.fields[ps[i].name], ps[i].type_, defs) <==>
                  Validates(v.fields[ps[i].name], Convert(ps[i].type_), defs)
        {
          ConvertFaithful(v.fields[ps[i].name], ps[i].type_, defs);
        }
      }
      ObjectFaithful(v, ps, defs);
    }
  }

  /** A JSON value inhabits a compilable type exactly when it validates against the schema emitted for it. */
  lemma {:induction false} ConvertFaithful(v: Json, t: TypeInfo, defs: Definitions)
    requires Compilable(t)
    ensures Inhabits(v, t, defs) <==> Validates(v, Convert(t), defs)
    decreases t, 1
  {
    match t
    case ArrayType(items) =>
      if v.JArray? {
        forall i | 0 <= i < |v.items|
          ensures Inhabits(v.items[i], items, defs) <==> Validates(v.items[i], Convert(items), defs)
        {
          ConvertFaithful(v.items[i], items, defs);
        }
      }
    case ObjectType(_) => ObjectCase(v, t, defs);
    case UnionType(ts) =>
      forall alternative | alternative in WithoutUndefined(ts)
        ensures Inhabits(v, alternative, defs) <==> Validates(v, Convert(alternative), defs)
      {
        ConvertFaithful(v, alternative, defs);
      }
      UnionFaithful(v, ts, defs);
    case PromiseType(inner) => ConvertFaithful(v, inner, defs);
    case _ => LeafFaithful(v, t, defs);
  }

  // ---------- where it does not ----------

  /** A union compiles faithfully exactly when it has an alternative besides undefined: otherwise it accepts anything. */
  lemma UnionFaithfulIff(ts: seq<TypeInfo>, defs: Definitions)
    requires forall i :: 0 <= i < |ts| && !IsUndefined(ts[i]) ==> Compilable(ts[i])
    ensures Faithful(UnionType(ts), defs) <==> exists t :: t in ts && !IsUndefined(t)
  {
    if t :| t in ts && !IsUndefined(t) {
      forall v: Json
        ensures Inhabits(v, UnionType(ts), defs) <==> Validates(v, Convert(UnionType(ts)), defs)
      {
        ConvertFaithful(v, UnionType(ts), defs);
      }
    } else {
      Sequences.EmptyOrMember(WithoutUndefined(ts));
      assert Convert(UnionType(ts)) == ConvertUnion(ts) == ANYTHING;
      assert !Inhabits(JNull, UnionType(ts), defs) by { UndefinedAddsNothing(JNull, ts, defs); }
      assert Validates(JNull, ANYTHING, defs);
    }
  }

  /** The schema emitted for a type means what the type means. */
  ghost predicate Faithful(t: TypeInfo, defs: Definitions) {
    forall v: Json :: Inhabits(v, t, defs) <==> Validates(v, Convert(t), defs)
  }

  ghost predicate Uninhabited(t: TypeInfo, defs: Definitions) {
    forall v: Json :: !Inhabits(v, t, defs)
  }

  /** Property j is the one named `__proto__`; every other visible property has a compilable type. */
  predicate HasProto(ps: seq<PropertyInfo>, j: nat) {
    && j < |ps| && ps[j].name == "__proto__" && DistinctVisible(ps)
    && forall i :: 0 <= i < |ps| && i != j && !IsBrand(ps[i].name) ==> Compilable(ps[i].type_)
  }

  lemma ProtoIsVisible(ps: seq<PropertyInfo>, j: nat)
    requires HasProto(ps, j)
    ensures !IsBrand(ps[j].name) && TypedResponseData(ps).None?
    ensures forall i :: 0 <= i < |ps| && i != j && !IsBrand(ps[i].name) ==> ps[i].name != "__proto__"
  {
    assert ps[j] in ps && !TypedResponseKey(ps[j].name);
  }

  /** What the emitted schema asks of an object: everything but the type of `__proto__`. */
  predicate MeetsTheRest(fields: map<string, Json>, ps: seq<PropertyInfo>, j: nat, defs: Definitions) {
    forall i :: 0 <= i < |ps| && !IsBrand(ps[i].name) ==>
      if ps[i].name in fields then i == j || Inhabits(fields[ps[i].name], ps[i].type_, defs) else ps[i].optional
  }

  lemma ProtoSchemaMeaning(v: Json, ps: seq<PropertyInfo>, j: nat, defs: Definitions)
    requires HasProto(ps, j)
    ensures Validates(v, Convert(ObjectType(ps)), defs) <==> v.JObject? && MeetsTheRest(v.fields, ps, j, defs)
  {
    ProtoIsVisible(ps, j);
    PropertiesHold(ps, |ps|);
    RequiredHolds(ps, |ps|);
    forall k | k in ConvertProperties(ps, |ps|)
      ensures k != "__proto__" && exists i :: 0 <= i < |ps| && !IsBrand(ps[i].name) && ps[i].name == k
    {
      OnlyVisibleProperties(ps, |ps|, k);
    }
    if v.JObject? {
      forall i | 0 <= i < |ps| && i != j && !IsBrand(ps[i].name) && ps[i].name in v.fields
        ensures Inhabits(v.fields[ps[i].name], ps[i].type_, defs) <==>
                Validates(v.fields[ps[i].name], Convert(ps[i].type_), defs)
      {
        ConvertFaithful(v.fields[ps[i].name], ps[i].type_, defs);
      }
    }
  }

  lemma ProtoTypeMeaning(v: Json, ps: seq<PropertyInfo>, j: nat, defs: Definitions)
    requires HasProto(ps, j)
    ensures Inhabits(v, ObjectType(ps), defs) <==>
            && v.JObject? && MeetsTheRest(v.fields, ps, j, defs)
            && ("__proto__" in v.fields ==> Inhabits(v.fields["__proto__"], ps[j].type_, defs))
  {
    ProtoIsVisible(ps, j);
  }

  /** Fields for `__proto__` and for every other required property, the latter of the right types. */
  lemma {:induction false} RequiredFields(ps: seq<PropertyInfo>, j: nat, count: nat, w: Json, defs: Definitions)
    returns (fields: map<string, Json>)
    requires HasProto(ps, j) && count <= |ps|
    requires forall i :: 0 <= i < |ps| && i != j && !IsBrand(ps[i].name) && !ps[i].optional ==>
               !Uninhabited(ps[i].type_, defs)
    ensures "__proto__" in fields && fields["__proto__"] == w
    ensures forall i :: 0 <= i < |ps| && i != j && !IsBrand(ps[i].name) ==>
              if ps[i].name in fields then Inhabits(fields[ps[i].name], ps[i].type_, defs)
              else ps[i].optional || i >= count
  {
    ProtoIsVisible(ps, j);
    if count == 0 {
      fields := map["__proto__" := w];
    } else {
      var p := ps[count - 1];
      fields := RequiredFields(ps, j, count - 1, w, defs);
      if count - 1 != j && !IsBrand(p.name) && !p.optional {
        var inhabitant: Json :| Inhabits(inhabitant, p.type_, defs);
        fields := fields[p.name := inhabitant];
      }
    }
  }

  /**
   A property named `__proto__` loses its type, whatever stands beside it and whether or not it is
   optional: the schema is faithful exactly when that type accepts everything, or another required
   property already shuts out every value.
   */
  lemma ProtoPropertyFaithfulIff(ps: seq<PropertyInfo>, j: nat, defs: Definitions)
    requires HasProto(ps, j)
    ensures Faithful(ObjectType(ps), defs) <==>
            || (forall w: Json :: Inhabits(w, ps[j].type_, defs))
            || exists i :: 0 <= i < |ps| && i != j && !IsBrand(ps[i].name) && !ps[i].optional && Uninhabited(ps[i].type_, defs)
  {
    var o := ObjectType(ps);
    if i :| 0 <= i < |ps| && i != j && !IsBrand(ps[i].name) && !ps[i].optional && Uninhabited(ps[i].type_, defs) {
      forall v: Json
        ensures Inhabits(v, o, defs) <==> Validates(v, Convert(o), defs)
      {
        ProtoSchemaMeaning(v, ps, j, defs);
        ProtoTypeMeaning(v, ps, j, defs);
      }
    } else if w: Json :| !Inhabits(w, ps[j].type_, defs) {
      var fields := RequiredFields(ps, j, |ps|, w, defs);
      ProtoSchemaMeaning(JObject(fields), ps, j, defs);
      ProtoTypeMeaning(JObject(fields), ps, j, defs);
    } else {
      forall v: Json
        ensures Inhabits(v, o, defs) <==> Validates(v, Convert(o), defs)
      {
        ProtoSchemaMeaning(v, ps, j, defs);
        ProtoTypeMeaning(v, ps, j, defs);
      }
    }
  }

  // ---------- the names a schema mentions ----------

  /** The named types met while converting: those whose definitions the document must carry. */
  function NamesIn(t: TypeInfo): set<string>
    decreases t, 1
  {
    match t
    case NamedType(name) => {name}
    case ArrayType(items) => NamesIn(items)
    case PromiseType(inner) => NamesIn(inner)
    case ObjectType(ps) =>
      if TypedResponseData(ps).Some? then
        var data := TypedResponseData(ps).value;
        assert exists i :: 0 <= i < |ps| && data == ps[i].type_;
        NamesIn(data)
      else PropertyNames(ps, |ps|)
    case UnionType(ts) => AlternativeNames(ts, |ts|)
    case _ => {}
  }

  function PropertyNames(ps: seq<PropertyInfo>, count: nat): set<string>
    requires count <= |ps|
    decreases ps, 0, count
  {
    if count == 0 then {}
    else PropertyNames(ps, count - 1) + if IsBrand(ps[count - 1].name) then {} else NamesIn(ps[count - 1].type_)
  }

  function AlternativeNames(ts: seq<TypeInfo>, count: nat): set<string>
    requires count <= |ts|
    decreases ts, 0, count
  {
    if count == 0 then {} else AlternativeNames(ts, count - 1) + NamesIn(ts[count - 1])
  }

  lemma {:induction false} AlternativeNamesAre(ts: seq<TypeInfo>, count: nat, n: string)
    requires count <= |ts|
    ensures n in AlternativeNames(ts, count) <==> exists i :: 0 <= i < count && n in NamesIn(ts[i])
  {
    if count > 0 { AlternativeNamesAre(ts, count - 1, n); }
  }

  /** Dropping undefined or null alternatives drops no names. */
  lemma DroppingKeepsNames(ts: seq<TypeInfo>, kept: seq<TypeInfo>)
    requires forall t :: t in kept ==> t in ts
    requires forall t :: t in ts && t !in kept ==> IsUndefined(t) || IsNull(t)
    ensures AlternativeNames(ts, |ts|) == AlternativeNames(kept, |kept|)
  {
    forall n: string
      ensures n in AlternativeNames(ts, |ts|) <==> n in AlternativeNames(kept, |kept|)
    {
      AlternativeNamesAre(ts, |ts|, n);
      AlternativeNamesAre(kept, |kept|, n);
      if i :| 0 <= i < |ts| && n in NamesIn(ts[i]) { assert ts[i] in kept; }
      if k :| 0 <= k < |kept| && n in NamesIn(kept[k]) { assert kept[k] in kept; }
    }
  }
}
