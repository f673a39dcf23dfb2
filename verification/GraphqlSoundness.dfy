/**
 Source validation and type soundness of the model line: what validateSource accepts
 (packages/graphql/src/graphql-model-runtime.lib.ts) completes under the type the schema gives it
 (packages/graphql/src/graphql-model-schema.lib.ts), with completion as in section 6.4.3 of the
 GraphQL specification (October 2021).
 */
module GraphqlValues {
  import opened Wrappers
  import opened GraphqlModel

  /** A JavaScript value as the runtime tells it apart; `Foreign` covers functions, symbols and the like. */
  datatype JsValue =
    | Undefined
    | Null
    | Bool(b: bool)
    | Number(finite: bool, n: real)
    | Text(s: string)
    | List(items: seq<JsValue>)
    | Record(fields: map<string, JsValue>)
    | Promised
    | Foreign

  type Source = map<string, JsValue>

  predicate MatchesScalar(v: JsValue, name: ScalarName) {
    match name
    case StringScalar => v.Text?
    case NumberScalar => v.Number? && v.finite
    case BooleanScalar => v.Bool?
  }

  predicate Matches(v: JsValue, d: Value) {
    match d
    case Opaque => true
    case Scalar(name) => MatchesScalar(v, name)
    case Nullable(inner) => v.Null? || Matches(v, inner)
    case Optional(inner) => v.Undefined? || Matches(v, inner)
    case Array(item) => v.List? && forall i :: 0 <= i < |v.items| ==> Matches(v.items[i], item)
  }

  predicate PropertyAccepts(source: Source, p: Property) {
    if p.name in source then Matches(source[p.name], p.value) else p.optional
  }

  datatype SourceFailure = NotAnObject | IdMismatch | PropertyRejected

  /** A provider's answer for one id: data, a known absence, or a contract violation. */
  function ValidateSource(d: Definition, id: string, v: JsValue): Result<Option<Source>, SourceFailure> {
    if v.Null? then Ok(None)
    else if !v.Record? then Err(NotAnObject)
    else if "id" !in v.fields || v.fields["id"] != Text(id) then Err(IdMismatch)
    else if exists p :: p in d.properties && !PropertyAccepts(v.fields, p) then Err(PropertyRejected)
    else Ok(Some(v.fields))
  }
}

module GraphqlSoundness {
  import opened Wrappers
  import opened GraphqlModel
  import opened GraphqlShape
  import opened GraphqlManifest
  import opened JsonData
  import opened GraphqlManifestProofs
  import opened GraphqlValues

  /** Object types of the schema and the type of each of their fields. */
  type Schema = map<string, map<string, Type>>

  predicate BuiltIn(name: string) {
    name == "String" || name == "Float" || name == "Boolean" || name == "ID"
  }

  predicate SchemaWellFormed(s: Schema) {
    && (forall name :: name in s ==> IsName(name) && !BuiltIn(name))
    && (forall name, f :: name in s && f in s[name] ==> WellFormed(s[name][f]))
  }

  // ---------- completion ----------

  datatype Out = ONull | OLeaf(value: JsValue) | OObject(source: Source) | OList(items: seq<Out>)

  /** The result of completing a value; `Propagates` is a null that a non-null position passes upwards. */
  datatype Completion = Done(out: Out, errors: nat) | Propagates(errors: nat)

  predicate Coerces(name: string, v: JsValue) {
    || (name == "String" && v.Text?)
    || (name == "ID" && v.Text?)
    || (name == "Float" && v.Number? && v.finite)
    || (name == "Boolean" && v.Bool?)
  }

  function Complete(s: Schema, t: Type, v: JsValue): Completion
    decreases t, 0
  {
    match t
    case NonNull(inner) =>
      (match Complete(s, inner, v)
       case Propagates(errors) => Propagates(errors)
       case Done(out, errors) =>
         if out.ONull? then Propagates(if errors == 0 then 1 else errors) else Done(out, errors))
    case ListOf(item) =>
      if v.Null? || v.Undefined? then Done(ONull, 0)
      else if !v.List? then Done(ONull, 1)
      else CompleteItems(s, item, v.items)
    case Named(name) =>
      if v.Null? || v.Undefined? then Done(ONull, 0)
      else if name in s then if v.Record? then Done(OObject(v.fields), 0) else Done(ONull, 1)
      else if Coerces(name, v) then Done(OLeaf(v), 0)
      else Done(ONull, 1)
  }

  /** A null that an item may not be makes the whole list null. */
  function CompleteItems(s: Schema, item: Type, items: seq<JsValue>): Completion
    decreases item, 1, |items|
  {
    if items == [] then Done(OList([]), 0)
    else
      match (Complete(s, item, items[0]), CompleteItems(s, item, items[1..]))
      case (Done(first, e1), Done(rest, e2)) =>
        if rest.OList? then Done(OList([first] + rest.items), e1 + e2) else Done(ONull, e1 + e2)
      case (Propagates(e1), rest) => Done(ONull, e1 + rest.errors)
      case (Done(_, e1), Propagates(e2)) => Done(ONull, e1 + e2)
  }

  /** What a response that loses nothing shows for a value. */
  function Response(v: JsValue): Out {
    match v
    case Undefined => ONull
    case Null => ONull
    case List(items) => OList(Responses(items))
    case Record(fields) => OObject(fields)
    case _ => OLeaf(v)
  }

  function Responses(items: seq<JsValue>): seq<Out> {
    if items == [] then [] else [Response(items[0])] + Responses(items[1..])
  }

  // ---------- soundness of values ----------

  lemma StrippedCompletes(s: Schema, t: Type, v: JsValue, nullable: bool)
    requires Complete(s, t, v) == Done(Response(v), 0) || (nullable && (v.Null? || v.Undefined?) && WellFormed(t))
    ensures Complete(s, Strip(t, nullable), v) == Done(Response(v), 0)
  {
  }

  lemma {:induction false} ItemsComplete(s: Schema, item: Type, items: seq<JsValue>)
    requires forall i :: 0 <= i < |items| ==> Complete(s, item, items[i]) == Done(Response(items[i]), 0)
    ensures CompleteItems(s, item, items) == Done(OList(Responses(items)), 0)
  {
    if items != [] {
      forall i | 0 <= i < |items[1..]|
        ensures Complete(s, item, items[1..][i]) == Done(Response(items[1..][i]), 0)
      {
        assert items[1..][i] == items[i + 1];
      }
      ItemsComplete(s, item, items[1..]);
    }
  }

  /** A value a public descriptor matches completes under the descriptor's type without loss or error. */
  lemma {:induction false} MatchedValueCompletes(s: Schema, d: Value, v: JsValue)
    requires SchemaWellFormed(s) && IsPublic(d) && Matches(v, d)
    ensures Complete(s, ValueType(d), v) == Done(Response(v), 0)
  {
    RenderValuePrints(d);
    match d
    case Scalar(name) => assert BuiltIn(ScalarType(name));
    case Array(item) =>
      forall i | 0 <= i < |v.items|
        ensures Complete(s, ValueType(item), v.items[i]) == Done(Response(v.items[i]), 0)
      {
        MatchedValueCompletes(s, item, v.items[i]);
      }
      ItemsComplete(s, ValueType(item), v.items);
    case Nullable(inner) =>
      RenderValuePrints(inner);
      if !v.Null? { MatchedValueCompletes(s, inner, v); }
      StrippedCompletes(s, ValueType(inner), v, true);
    case Optional(inner) =>
      RenderValuePrints(inner);
      if !v.Undefined? { MatchedValueCompletes(s, inner, v); }
      StrippedCompletes(s, ValueType(inner), v, true);
  }

  // ---------- agreement of schema and manifest ----------

  /** A property whose name starts with `$` is private data. */
  predicate IsPrivate(name: string) {
    name != [] && name[0] == '$'
  }

  predicate FieldAllowed(m: Manifest, model: string, f: string)
    requires model in m.models
  {
    || (PropertyNamed(m.models[model], f) && !IsPrivate(f))
    || (model in m.fields && f in m.fields[model])
  }

  /** validateSources: the object type has every public property under its rendered type, and no unknown field. */
  predicate SourcesAgree(m: Manifest, s: Schema) {
    forall name :: name in m.models ==>
      && name in s
      && (forall f :: f in s[name] ==> FieldAllowed(m, name, f))
      && (forall p :: p in m.models[name].properties && !IsPrivate(p.name) ==>
            p.name in s[name] && RenderProperty(p) == Some(Print(s[name][p.name])))
  }

  function RenderField(f: Field): Option<string> {
    if f.Computed? then RenderValue(f.value) else Some(RenderResult(f.target, f.shape))
  }

  /** validateBindings: every manifest field is bound and has its rendered type. */
  predicate BindingsAgree(m: Manifest, s: Schema, bindings: map<string, map<string, Binding>>) {
    forall owner :: owner in m.fields ==>
      && owner in s
      && forall f :: f in m.fields[owner] ==>
           && f in s[owner] && owner in bindings && f in bindings[owner]
           && RenderField(m.fields[owner][f]) == Some(Print(s[owner][f]))
  }

  function FieldValue(source: Source, name: string): JsValue {
    if name in source then source[name] else Undefined
  }

  lemma AcceptedPropertyCompletes(s: Schema, source: Source, p: Property)
    requires SchemaWellFormed(s) && IsPublic(p.value) && p.name != "id" && PropertyAccepts(source, p)
    ensures Complete(s, PropertyType(p), FieldValue(source, p.name)) == Done(Response(FieldValue(source, p.name)), 0)
  {
    var v := FieldValue(source, p.name);
    RenderValuePrints(p.value);
    if p.name in source { MatchedValueCompletes(s, p.value, v); }
    StrippedCompletes(s, ValueType(p.value), v, p.optional);
  }

  /**
   Type soundness: under a parsed manifest and an agreeing schema, every source validateSource accepts
   completes each public property, under the type the schema declares, without loss, without error
   and without a null where the type allows none.
   */
  lemma SourcesComplete(modelsJson: Json, fieldsJson: Json, m: Manifest, s: Schema,
                        name: string, id: string, v: JsValue, p: Property)
    requires ParseManifest(modelsJson, fieldsJson) == Some(m) && SchemaWellFormed(s) && SourcesAgree(m, s)
    requires name in m.models && p in m.models[name].properties && !IsPrivate(p.name)
    requires ValidateSource(m.models[name], id, v).Ok? && ValidateSource(m.models[name], id, v).value.Some?
    ensures var source := ValidateSource(m.models[name], id, v).value.value;
            var value := FieldValue(source, p.name);
            && p.name in s[name]
            && Complete(s, s[name][p.name], value) == Done(Response(value), 0)
            && (s[name][p.name].NonNull? ==> !Response(value).ONull?)
  {
    ParsedModelsAreWellFormed(modelsJson, fieldsJson, m, name);
    AcceptedSource(m.models[name], id, v, p);
    DeclaredPropertyType(m, s, name, p);
    PropertyCompletes(s, v.fields, id, p);
    NonNullIsNotNull(s, s[name][p.name], FieldValue(v.fields, p.name));
  }

  lemma PropertyCompletes(s: Schema, source: Source, id: string, p: Property)
    requires SchemaWellFormed(s) && IsPublic(p.value) && PropertyAccepts(source, p)
    requires FieldValue(source, "id") == Text(id)
    ensures Complete(s, PropertyType(p), FieldValue(source, p.name)) == Done(Response(FieldValue(source, p.name)), 0)
  {
    if p.name == "id" { IdCompletes(s, id); } else { AcceptedPropertyCompletes(s, source, p); }
  }

  lemma ParsedModelsAreWellFormed(modelsJson: Json, fieldsJson: Json, m: Manifest, name: string)
    requires ParseManifest(modelsJson, fieldsJson) == Some(m) && name in m.models
    ensures WellFormedModel(m.models[name])
  {
    ParseManifestExact(modelsJson, fieldsJson, m);
  }

  lemma AcceptedSource(d: Definition, id: string, v: JsValue, p: Property)
    requires ValidateSource(d, id, v).Ok? && ValidateSource(d, id, v).value.Some? && p in d.properties
    ensures v.Record? && ValidateSource(d, id, v).value.value == v.fields
    ensures FieldValue(v.fields, "id") == Text(id) && PropertyAccepts(v.fields, p)
  {
  }

  lemma DeclaredPropertyType(m: Manifest, s: Schema, name: string, p: Property)
    requires SchemaWellFormed(s) && SourcesAgree(m, s) && name in m.models && WellFormedModel(m.models[name])
    requires p in m.models[name].properties && !IsPrivate(p.name)
    ensures p.name in s[name] && IsPublic(p.value) && s[name][p.name] == PropertyType(p)
  {
    if p.name == "id" { OnlyOneId(m.models[name], p); }
    RenderedPropertyDeterminesType(p, s[name][p.name]);
  }

  lemma IdCompletes(s: Schema, id: string)
    requires SchemaWellFormed(s)
    ensures Complete(s, NonNull(Named("ID")), Text(id)) == Done(OLeaf(Text(id)), 0)
  {
    assert BuiltIn("ID");
  }

  lemma NonNullIsNotNull(s: Schema, t: Type, v: JsValue)
    requires Complete(s, t, v) == Done(Response(v), 0)
    ensures t.NonNull? ==> !Response(v).ONull?
  {
  }

  lemma OnlyOneId(d: Definition, p: Property)
    requires WellFormedModel(d) && p in d.properties && p.name == "id"
    ensures p == ID
  {
  }

  /** The type a computed or relation field stands for. */
  predicate FieldTyped(field: Field, t: Type) {
    if field.Computed? then IsPublic(field.value) && t == ValueType(field.value)
    else t == ResultType(field.target, field.shape)
  }

  lemma RenderedFieldDeterminesType(field: Field, t: Type)
    requires WellFormed(t) && (!field.Computed? ==> IsName(field.target))
    ensures RenderField(field) == Some(Print(t)) <==> FieldTyped(field, t)
  {
    if field.Computed? {
      RenderValuePrints(field.value);
      if IsPublic(field.value) && Print(t) == Print(ValueType(field.value)) { PrintInjective(t, ValueType(field.value)); }
    } else {
      RenderedResultDeterminesType(field.target, field.shape, t);
    }
  }

  /** Every field the schema gives a model is a public property or a bound field of the manifest, and has its type. */
  lemma ModelFieldsCovered(modelsJson: Json, fieldsJson: Json, m: Manifest, s: Schema,
                           bindings: map<string, map<string, Binding>>, name: string, f: string)
    requires ParseManifest(modelsJson, fieldsJson) == Some(m)
    requires SchemaWellFormed(s) && SourcesAgree(m, s) && BindingsAgree(m, s, bindings)
    requires name in m.models && f in s[name]
    ensures (exists p :: p in m.models[name].properties && p.name == f && !IsPrivate(f) && IsPublic(p.value) &&
                         s[name][f] == PropertyType(p)) ||
            (name in m.fields && f in m.fields[name] && name in bindings && f in bindings[name] &&
             FieldTyped(m.fields[name][f], s[name][f]))
  {
    ParseManifestExact(modelsJson, fieldsJson, m);
    if name in m.fields && f in m.fields[name] {
      RenderedFieldDeterminesType(m.fields[name][f], s[name][f]);
    } else {
      var p :| p in m.models[name].properties && p.name == f;
      if p.name == "id" { OnlyOneId(m.models[name], p); }
      RenderedPropertyDeterminesType(p, s[name][f]);
    }
  }
}
