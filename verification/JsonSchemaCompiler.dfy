/** The compiler as the source runs it: loops over properties, and a table of the named types it meets. */
module JsonSchemaCompiler {
  import opened Wrappers
  import opened JsonSchemas
  import opened JsonSchemaProofs

  class SchemaContext {
    var definitions: set<string>

    constructor ()
      ensures definitions == {}
    {
      definitions := {};
    }

    method ConvertTypeInfo(t: TypeInfo) returns (s: Schema)
      modifies this
      ensures s == Convert(t) && definitions == old(definitions) + NamesIn(t)
      decreases t, 1
    {
      match t {
        case PrimitiveType(p) => return ConvertPrimitive(p);
        case LiteralType(value) => return ANYTHING.(const_ := Some(value));
        case ArrayType(items) =>
          var inner := ConvertTypeInfo(items);
          return ANYTHING.(type_ := OneType("array"), items := Some(inner));
        case ObjectType(ps) =>
          var data := FindTypedResponseDataType(ps);
          if data.Some? {
            assert exists i :: 0 <= i < |ps| && data.value == ps[i].type_;
            s := ConvertTypeInfo(data.value);
          } else {
            var properties, required := ConvertPropertiesLoop(ps);
            s := ANYTHING.(type_ := OneType("object"), properties := properties, required := required);
          }
        case UnionType(ts) => s := ConvertUnionType(ts);
        case NamedType(name) =>
          definitions := definitions + {name};
          return ANYTHING.(ref := Some(name));
        case RefType(name) => return ANYTHING.(ref := Some(name));
        case PromiseType(inner) => s := ConvertTypeInfo(inner);
        case UnknownType => return ANYTHING;
      }
    }

    /** Remembers the last `_data` while checking that no other name occurs. */
    static method FindTypedResponseDataType(ps: seq<PropertyInfo>) returns (data: Option<TypeInfo>)
      ensures data == TypedResponseData(ps)
    {
      data := None;
      if |ps| != 3 { return; }
      for i := 0 to |ps|
        invariant forall k :: 0 <= k < i ==> TypedResponseKey(ps[k].name)
        invariant data == LastData(ps, i)
      {
        if !TypedResponseKey(ps[i].name) { return None; }
        if ps[i].name == "_data" { data := Some(ps[i].type_); }
      }
    }

    method ConvertPropertiesLoop(ps: seq<PropertyInfo>) returns (properties: map<string, Schema>, required: seq<string>)
      modifies this
      ensures properties == ConvertProperties(ps, |ps|) && required == Required(ps, |ps|)
      ensures definitions == old(definitions) + PropertyNames(ps, |ps|)
      decreases ps, 0
    {
      properties, required := map[], [];
      for i := 0 to |ps|
        invariant properties == ConvertProperties(ps, i) && required == Required(ps, i)
        invariant definitions == old(definitions) + PropertyNames(ps, i)
      {
        var p := ps[i];
        if !IsBrand(p.name) {
          var s := ConvertTypeInfo(p.type_);
          properties := SetEntry(properties, p.name, s);
          if !p.optional { required := required + [p.name]; }
        }
      }
    }

    method ConvertUnionType(ts: seq<TypeInfo>) returns (s: Schema)
      modifies this
      ensures s == ConvertUnion(ts) && definitions == old(definitions) + AlternativeNames(ts, |ts|)
      decreases ts, 1
    {
      var defined := WithoutUndefined(ts);
      if defined == [] {
        NothingDefined(ts);
        return ANYTHING;
      }
      assert defined[0] in defined;
      var nonNull := WithoutNull(defined);
      if |defined| == 1 {
        OneAlternative(ts);
        s := ConvertTypeInfo(defined[0]);
      } else if |nonNull| != |defined| && |nonNull| == 1 {
        assert nonNull[0] in nonNull;
        NullableAlternative(ts);
        s := ConvertTypeInfo(nonNull[0]);
        s := Nullable(s);
      } else {
        var anyOf := ConvertAlternatives(ts, defined);
        DroppingKeepsNames(ts, defined);
        ManyAlternatives(ts, defined, anyOf);
        s := ANYTHING.(anyOf := anyOf);
      }
    }

    method ConvertAlternatives(ts: seq<TypeInfo>, kept: seq<TypeInfo>) returns (anyOf: seq<Schema>)
      requires forall t :: t in kept ==> t in ts
      modifies this
      ensures |anyOf| == |kept| && forall k :: 0 <= k < |kept| ==> anyOf[k] == Convert(kept[k])
      ensures definitions == old(definitions) + AlternativeNames(kept, |kept|)
      decreases ts, 0
    {
      anyOf := [];
      for i := 0 to |kept|
        invariant |anyOf| == i && forall k :: 0 <= k < i ==> anyOf[k] == Convert(kept[k])
        invariant definitions == old(definitions) + AlternativeNames(kept, i)
      {
        assert kept[i] in kept;
        var one := ConvertTypeInfo(kept[i]);
        anyOf := anyOf + [one];
      }
    }
  }

  // ---------- the forms of a union, with the names each keeps ----------

  lemma NothingDefined(ts: seq<TypeInfo>)
    requires WithoutUndefined(ts) == []
    ensures ConvertUnion(ts) == ANYTHING && AlternativeNames(ts, |ts|) == {}
  {
    DroppingKeepsNames(ts, []);
  }

  lemma OneAlternative(ts: seq<TypeInfo>)
    requires |WithoutUndefined(ts)| == 1
    ensures ConvertUnion(ts) == Convert(WithoutUndefined(ts)[0])
    ensures AlternativeNames(ts, |ts|) == NamesIn(WithoutUndefined(ts)[0])
  {
    UnionForms(ts);
    DroppingKeepsNames(ts, WithoutUndefined(ts));
    NamesOfOne(WithoutUndefined(ts));
  }

  lemma NullableAlternative(ts: seq<TypeInfo>)
    requires |WithoutUndefined(ts)| > 1 && |WithoutNull(WithoutUndefined(ts))| == 1
    ensures ConvertUnion(ts) == Nullable(Convert(WithoutNull(WithoutUndefined(ts))[0]))
    ensures AlternativeNames(ts, |ts|) == NamesIn(WithoutNull(WithoutUndefined(ts))[0])
  {
    UnionForms(ts);
    var defined := WithoutUndefined(ts);
    DroppingKeepsNames(ts, defined);
    DroppingKeepsNames(defined, WithoutNull(defined));
    NamesOfOne(WithoutNull(defined));
  }

  lemma ManyAlternatives(ts: seq<TypeInfo>, defined: seq<TypeInfo>, anyOf: seq<Schema>)
    requires defined == WithoutUndefined(ts) && |defined| > 1 && |WithoutNull(defined)| != 1
    requires |anyOf| == |defined| && forall k :: 0 <= k < |defined| ==> anyOf[k] == Convert(defined[k])
    ensures ConvertUnion(ts) == ANYTHING.(anyOf := anyOf)
  {
    UnionForms(ts);
    var s := ConvertUnion(ts);
    forall k | 0 <= k < |defined|
      ensures s.anyOf[k] == anyOf[k]
    {
    }
    assert s.anyOf == anyOf;
  }

  lemma NamesOfOne(ts: seq<TypeInfo>)
    requires |ts| == 1
    ensures AlternativeNames(ts, 1) == NamesIn(ts[0])
  {
    assert AlternativeNames(ts, 0) == {};
  }
}
