/** The parser accepts exactly the well-formed manifests, and returns the one its input stands for. */
module GraphqlManifestProofs {
  import opened Wrappers
  import opened GraphqlModel
  import opened GraphqlManifest
  import opened JsonData

  // ---------- which JSON stands for which descriptor ----------

  function ScalarText(name: ScalarName): string {
    match name
    case StringScalar => "string"
    case NumberScalar => "number"
    case BooleanScalar => "boolean"
  }

  function ModeText(mode: Mode): string {
    match mode
    case Single => "single"
    case Batch => "batch"
  }

  predicate DenotesValue(j: Json, v: Value)
    decreases v
  {
    match v
    case Opaque => GetString(j, "kind") == Some("opaque")
    case Scalar(name) => GetString(j, "kind") == Some("scalar") && GetString(j, "name") == Some(ScalarText(name))
    case Array(item) =>
      GetString(j, "kind") == Some("array") && Get(j, "item").Some? && DenotesValue(Get(j, "item").value, item)
    case Nullable(inner) =>
      GetString(j, "kind") == Some("nullable") && Get(j, "inner").Some? && DenotesValue(Get(j, "inner").value, inner)
    case Optional(inner) =>
      GetString(j, "kind") == Some("optional") && Get(j, "inner").Some? && DenotesValue(Get(j, "inner").value, inner)
  }

  predicate DenotesProperty(j: Json, p: Property) {
    && GetString(j, "name") == Some(p.name)
    && GetBool(j, "optional") == Some(p.optional)
    && Get(j, "value").Some? && DenotesValue(Get(j, "value").value, p.value)
  }

  predicate DenotesProperties(j: Option<Json>, ps: seq<Property>) {
    && j.Some? && j.value.JArray? && |j.value.items| == |ps|
    && forall i :: 0 <= i < |ps| ==> DenotesProperty(j.value.items[i], ps[i])
  }

  predicate DenotesDependencies(j: Option<Json>, ds: seq<string>) {
    && j.Some? && j.value.JArray? && |j.value.items| == |ds|
    && forall i :: 0 <= i < |ds| ==> j.value.items[i] == JString(ds[i])
  }

  predicate DenotesBinding(j: Option<Json>, b: Binding) {
    j.Some? && GetString(j.value, "resolver") == Some(b.resolver) && GetString(j.value, "method") == Some(b.method_)
  }

  predicate DenotesModel(j: Json, d: Definition) {
    && GetString(j, "mode") == Some(ModeText(d.mode))
    && DenotesBinding(Get(j, "provider"), d.provider)
    && DenotesProperties(Get(j, "properties"), d.properties)
  }

  predicate DenotesShape(j: Option<Json>, s: Shape) {
    && j.Some? && GetBool(j.value, "nullable") == Some(s.nullable)
    && match s
       case One(_) => GetString(j.value, "kind") == Some("one")
       case Many(_, itemNullable) =>
         GetString(j.value, "kind") == Some("many") && GetBool(j.value, "itemNullable") == Some(itemNullable)
  }

  predicate DenotesField(j: Json, f: Field) {
    match f
    case Query(target, shape) =>
      && GetString(j, "kind") == Some("query") && GetString(j, "target") == Some(target)
      && DenotesShape(Get(j, "shape"), shape)
    case Relation(target, shape, dependencies, mode) =>
      && GetString(j, "kind") == Some("relation") && GetString(j, "target") == Some(target)
      && GetString(j, "mode") == Some(ModeText(mode))
      && DenotesShape(Get(j, "shape"), shape) && DenotesDependencies(Get(j, "dependencies"), dependencies)
    case Computed(dependencies, mode, value) =>
      && GetString(j, "kind") == Some("computed") && GetString(j, "mode") == Some(ModeText(mode))
      && DenotesDependencies(Get(j, "dependencies"), dependencies)
      && Get(j, "value").Some? && DenotesValue(Get(j, "value").value, value)
  }

  predicate DenotesModels(j: Json, ms: Models) {
    j.JObject? && j.fields.Keys == ms.Keys && forall k :: k in ms ==> DenotesModel(j.fields[k], ms[k])
  }

  predicate DenotesFieldMap(j: Json, fs: map<string, Field>) {
    j.JObject? && j.fields.Keys == fs.Keys && forall k :: k in fs ==> DenotesField(j.fields[k], fs[k])
  }

  predicate DenotesFields(j: Json, fs: Fields) {
    j.JObject? && j.fields.Keys == fs.Keys && forall k :: k in fs ==> DenotesFieldMap(j.fields[k], fs[k])
  }

  // ---------- which descriptors are well formed ----------

  function Height(v: Value): nat {
    match v
    case Opaque => 0
    case Scalar(_) => 0
    case Array(item) => 1 + Height(item)
    case Nullable(inner) => 1 + Height(inner)
    case Optional(inner) => 1 + Height(inner)
  }

  predicate DistinctNames(ps: seq<Property>) {
    forall i, j :: 0 <= i < j < |ps| ==> ps[i].name != ps[j].name
  }

  predicate Distinct(ds: seq<string>) {
    forall i, j :: 0 <= i < j < |ds| ==> ds[i] != ds[j]
  }

  const ID := Property("id", false, Scalar(StringScalar))

  predicate WellFormedModel(d: Definition) {
    && DistinctNames(d.properties) && ID in d.properties
    && forall p :: p in d.properties ==> Height(p.value) <= MAX_DEPTH
  }

  predicate WellFormedField(f: Field) {
    && (!f.Query? ==> Distinct(f.dependencies))
    && (f.Computed? ==> IsPublic(f.value) && Height(f.value) <= MAX_DEPTH)
  }

  predicate WellFormedFieldMap(fs: map<string, Field>) {
    forall k :: k in fs ==> WellFormedField(fs[k])
  }

  predicate WellFormedManifest(m: Manifest) {
    && (forall k :: k in m.models ==> WellFormedModel(m.models[k]))
    && (forall owner :: owner in m.fields ==> WellFormedFieldMap(m.fields[owner]))
    && ReferencesOk(m.models, m.fields)
  }

  // ---------- exactness, part by part ----------

  lemma {:induction false} ParseValueExact(j: Json, v: Value, depth: nat)
    ensures ParseValue(j, depth) == Some(v) <==> DenotesValue(j, v) && depth + Height(v) <= MAX_DEPTH
    decreases v
  {
    match v
    case Opaque =>
    case Scalar(_) =>
    case Array(item) =>
      if Get(j, "item").Some? { ParseValueExact(Get(j, "item").value, item, depth + 1); }
    case Nullable(inner) =>
      if Get(j, "inner").Some? { ParseValueExact(Get(j, "inner").value, inner, depth + 1); }
    case Optional(inner) =>
      if Get(j, "inner").Some? { ParseValueExact(Get(j, "inner").value, inner, depth + 1); }
  }

  lemma ParsePropertyExact(j: Json, p: Property)
    ensures ParseProperty(j) == Some(p) <==> DenotesProperty(j, p) && Height(p.value) <= MAX_DEPTH
  {
    if Get(j, "value").Some? { ParseValueExact(Get(j, "value").value, p.value, 0); }
  }

  lemma NamesSplit(ps: seq<Property>)
    requires ps != []
    ensures var init, last := ps[..|ps| - 1], ps[|ps| - 1];
            DistinctNames(ps) <==> DistinctNames(init) && !exists q :: q in init && q.name == last.name
  {
  }

  lemma {:induction false} PropertiesExact(items: seq<Json>, parse: Json -> Option<Property>, count: nat, ps: seq<Property>)
    requires count <= |items|
    ensures PropertiesUpTo(items, parse, count) == Some(ps) <==>
            |ps| == count && DistinctNames(ps) && forall i :: 0 <= i < count ==> parse(items[i]) == Some(ps[i])
  {
    if count > 0 && |ps| > 0 {
      var init, last := ps[..|ps| - 1], ps[|ps| - 1];
      assert ps == init + [last];
      PropertiesExact(items, parse, count - 1, init);
      NamesSplit(ps);
      var done := PropertiesUpTo(items, parse, count - 1);
      assert done.Some? && done.value + [last] == ps ==> done.value == init;
    }
  }

  lemma {:induction false} DependenciesExact(items: seq<Json>, count: nat, ds: seq<string>)
    requires count <= |items|
    ensures DependenciesUpTo(items, count) == Some(ds) <==>
            |ds| == count && Distinct(ds) && forall i :: 0 <= i < count ==> items[i] == JString(ds[i])
  {
    if count > 0 && |ds| > 0 {
      var init, last := ds[..|ds| - 1], ds[|ds| - 1];
      assert ds == init + [last];
      DependenciesExact(items, count - 1, init);
      assert Distinct(ds) <==> Distinct(init) && last !in init;
      var done := DependenciesUpTo(items, count - 1);
      assert done.Some? && done.value + [last] == ds ==> done.value == init;
    }
  }

  lemma {:induction false} FindIdFinds(ps: seq<Property>)
    requires DistinctNames(ps)
    ensures IdOk(FindId(ps)) <==> ID in ps
    ensures FindId(ps).Some? ==> FindId(ps).value in ps && FindId(ps).value.name == "id"
  {
    if ps != [] {
      FindIdFinds(ps[1..]);
      assert ps == [ps[0]] + ps[1..];
    }
  }

  lemma ParsePropertiesExact(j: Option<Json>, ps: seq<Property>)
    ensures ParseProperties(j) == Some(ps) <==>
            DenotesProperties(j, ps) && DistinctNames(ps) && forall p :: p in ps ==> Height(p.value) <= MAX_DEPTH
  {
    if j.Some? && j.value.JArray? {
      PropertiesExact(j.value.items, ParseProperty, |j.value.items|, ps);
      if |ps| == |j.value.items| {
        forall i | 0 <= i < |ps|
          ensures ParseProperty(j.value.items[i]) == Some(ps[i]) <==>
                  DenotesProperty(j.value.items[i], ps[i]) && Height(ps[i].value) <= MAX_DEPTH
        {
          ParsePropertyExact(j.value.items[i], ps[i]);
        }
        assert forall i :: 0 <= i < |ps| ==> ps[i] in ps;
      }
    }
  }

  lemma ModeExact(s: string, mode: Mode)
    ensures ParseMode(s) == Some(mode) <==> s == ModeText(mode)
  {
  }

  lemma ParseBindingExact(j: Json, b: Binding)
    ensures ParseBinding(j) == Some(b) <==> DenotesBinding(Some(j), b)
  {
  }

  lemma ParseModelExact(j: Json, d: Definition)
    ensures ParseModel(j) == Some(d) <==> DenotesModel(j, d) && WellFormedModel(d)
  {
    ParsePropertiesExact(Get(j, "properties"), d.properties);
    if Get(j, "provider").Some? { ParseBindingExact(Get(j, "provider").value, d.provider); }
    if GetString(j, "mode").Some? { ModeExact(GetString(j, "mode").value, d.mode); }
    if DistinctNames(d.properties) { FindIdFinds(d.properties); }
  }

  lemma ParseShapeExact(j: Option<Json>, s: Shape)
    ensures ParseShape(j) == Some(s) <==> DenotesShape(j, s)
  {
  }

  lemma ParseDependenciesExact(j: Option<Json>, ds: seq<string>)
    ensures ParseDependencies(j) == Some(ds) <==> DenotesDependencies(j, ds) && Distinct(ds)
  {
    if j.Some? && j.value.JArray? { DependenciesExact(j.value.items, |j.value.items|, ds); }
  }

  lemma ParseComputedExact(j: Json, mode: Mode, f: Field)
    ensures ParseComputed(j, mode) == Some(f) <==>
            && f.Computed? && f.mode == mode && WellFormedField(f)
            && DenotesDependencies(Get(j, "dependencies"), f.dependencies)
            && Get(j, "value").Some? && DenotesValue(Get(j, "value").value, f.value)
  {
    if f.Computed? {
      ParseDependenciesExact(Get(j, "dependencies"), f.dependencies);
      if Get(j, "value").Some? { ParseValueExact(Get(j, "value").value, f.value, 0); }
    }
  }

  lemma ParseRelationExact(j: Json, target: string, mode: Mode, f: Field)
    ensures ParseRelation(j, target, mode) == Some(f) <==>
            && f.Relation? && f.target == target && f.mode == mode && WellFormedField(f)
            && DenotesShape(Get(j, "shape"), f.shape) && DenotesDependencies(Get(j, "dependencies"), f.dependencies)
  {
    if f.Relation? {
      ParseShapeExact(Get(j, "shape"), f.shape);
      ParseDependenciesExact(Get(j, "dependencies"), f.dependencies);
    }
  }

  lemma ParseFieldExact(j: Json, f: Field)
    ensures ParseField(j) == Some(f) <==> DenotesField(j, f) && WellFormedField(f)
  {
    if GetString(j, "mode").Some? && !f.Query? { ModeExact(GetString(j, "mode").value, f.mode); }
    if GetMode(j).Some? {
      ParseComputedExact(j, GetMode(j).value, f);
      if GetString(j, "target").Some? { ParseRelationExact(j, GetString(j, "target").value, GetMode(j).value, f); }
    }
    if f.Query? { ParseShapeExact(Get(j, "shape"), f.shape); }
  }

  lemma RecordExact<T>(j: Json, parse: Json -> Option<T>, m: map<string, T>)
    ensures ParseRecord(j, parse) == Some(m) <==>
            j.JObject? && j.fields.Keys == m.Keys && forall k :: k in m ==> parse(j.fields[k]) == Some(m[k])
  {
    var r := ParseRecord(j, parse);
    if j.JObject? && j.fields.Keys == m.Keys && (forall k :: k in m ==> parse(j.fields[k]) == Some(m[k])) {
      assert forall k :: k in j.fields ==> k in m;
      assert r.Some? && r.value == m;
    }
  }

  lemma ParseModelsExact(j: Json, ms: Models)
    ensures ParseRecord(j, ParseModel) == Some(ms) <==>
            DenotesModels(j, ms) && forall k :: k in ms ==> WellFormedModel(ms[k])
  {
    RecordExact(j, ParseModel, ms);
    if j.JObject? && j.fields.Keys == ms.Keys {
      forall k | k in ms
        ensures ParseModel(j.fields[k]) == Some(ms[k]) <==> DenotesModel(j.fields[k], ms[k]) && WellFormedModel(ms[k])
      {
        ParseModelExact(j.fields[k], ms[k]);
      }
    }
  }

  lemma ParseFieldsExact(j: Json, fs: map<string, Field>)
    ensures ParseFields(j) == Some(fs) <==> DenotesFieldMap(j, fs) && WellFormedFieldMap(fs)
  {
    RecordExact(j, ParseField, fs);
    if j.JObject? && j.fields.Keys == fs.Keys {
      forall k | k in fs
        ensures ParseField(j.fields[k]) == Some(fs[k]) <==> DenotesField(j.fields[k], fs[k]) && WellFormedField(fs[k])
      {
        ParseFieldExact(j.fields[k], fs[k]);
      }
    }
  }

  lemma ParseOwnersExact(j: Json, fs: Fields)
    ensures ParseRecord(j, ParseFields) == Some(fs) <==>
            DenotesFields(j, fs) && forall owner :: owner in fs ==> WellFormedFieldMap(fs[owner])
  {
    RecordExact(j, ParseFields, fs);
    if j.JObject? && j.fields.Keys == fs.Keys {
      forall k | k in fs
        ensures ParseFields(j.fields[k]) == Some(fs[k]) <==> DenotesFieldMap(j.fields[k], fs[k]) && WellFormedFieldMap(fs[k])
      {
        ParseFieldsExact(j.fields[k], fs[k]);
      }
    }
  }

  /** The parser answers with a manifest exactly when the JSON stands for it and it is well formed. */
  lemma ParseManifestExact(modelsJson: Json, fieldsJson: Json, m: Manifest)
    ensures ParseManifest(modelsJson, fieldsJson) == Some(m) <==>
            DenotesModels(modelsJson, m.models) && DenotesFields(fieldsJson, m.fields) && WellFormedManifest(m)
  {
    ParseModelsExact(modelsJson, m.models);
    ParseOwnersExact(fieldsJson, m.fields);
  }

  // ---------- the serialised form ----------

  function ValueJson(v: Value): Json {
    match v
    case Opaque => JObject(map["kind" := JString("opaque")])
    case Scalar(name) => JObject(map["kind" := JString("scalar"), "name" := JString(ScalarText(name))])
    case Array(item) => JObject(map["kind" := JString("array"), "item" := ValueJson(item)])
    case Nullable(inner) => JObject(map["kind" := JString("nullable"), "inner" := ValueJson(inner)])
    case Optional(inner) => JObject(map["kind" := JString("optional"), "inner" := ValueJson(inner)])
  }

  function PropertyJson(p: Property): Json {
    JObject(map["name" := JString(p.name), "optional" := JBool(p.optional), "value" := ValueJson(p.value)])
  }

  function DependenciesJson(ds: seq<string>): Json {
    JArray(seq(|ds|, i requires 0 <= i < |ds| => JString(ds[i])))
  }

  function ModelJson(d: Definition): Json {
    JObject(map["provider" := JObject(map["resolver" := JString(d.provider.resolver), "method" := JString(d.provider.method_)]),
                "mode" := JString(ModeText(d.mode)),
                "properties" := JArray(seq(|d.properties|, i requires 0 <= i < |d.properties| => PropertyJson(d.properties[i])))])
  }

  function ShapeJson(s: Shape): Json {
    match s
    case One(nullable) => JObject(map["kind" := JString("one"), "nullable" := JBool(nullable)])
    case Many(nullable, itemNullable) =>
      JObject(map["kind" := JString("many"), "nullable" := JBool(nullable), "itemNullable" := JBool(itemNullable)])
  }

  function FieldJson(f: Field): Json {
    match f
    case Query(target, shape) =>
      JObject(map["kind" := JString("query"), "target" := JString(target), "shape" := ShapeJson(shape)])
    case Relation(target, shape, dependencies, mode) =>
      JObject(map["kind" := JString("relation"), "target" := JString(target), "shape" := ShapeJson(shape),
                  "dependencies" := DependenciesJson(dependencies), "mode" := JString(ModeText(mode))])
    case Computed(dependencies, mode, value) =>
      JObject(map["kind" := JString("computed"), "dependencies" := DependenciesJson(dependencies),
                  "mode" := JString(ModeText(mode)), "value" := ValueJson(value)])
  }

  function ModelsJson(ms: Models): Json {
    JObject(map k | k in ms :: ModelJson(ms[k]))
  }

  function FieldMapJson(fs: map<string, Field>): Json {
    JObject(map k | k in fs :: FieldJson(fs[k]))
  }

  function FieldsJson(fs: Fields): Json {
    JObject(map k | k in fs :: FieldMapJson(fs[k]))
  }

  lemma {:induction false} ValueJsonDenotes(v: Value)
    ensures DenotesValue(ValueJson(v), v)
  {
    match v
    case Opaque =>
    case Scalar(_) =>
    case Array(item) => ValueJsonDenotes(item);
    case Nullable(inner) => ValueJsonDenotes(inner);
    case Optional(inner) => ValueJsonDenotes(inner);
  }

  lemma ModelJsonDenotes(d: Definition)
    ensures DenotesModel(ModelJson(d), d)
  {
    forall i | 0 <= i < |d.properties|
      ensures DenotesProperty(PropertyJson(d.properties[i]), d.properties[i])
    {
      ValueJsonDenotes(d.properties[i].value);
    }
  }

  lemma ComputedJsonDenotes(f: Field)
    requires f.Computed?
    ensures DenotesField(FieldJson(f), f)
  {
    ValueJsonDenotes(f.value);
  }

  lemma RelationJsonDenotes(f: Field)
    requires f.Relation?
    ensures DenotesField(FieldJson(f), f)
  {
    assert DenotesShape(Some(ShapeJson(f.shape)), f.shape);
  }

  lemma FieldJsonDenotes(f: Field)
    ensures DenotesField(FieldJson(f), f)
  {
    match f
    case Query(_, shape) => assert DenotesShape(Some(ShapeJson(shape)), shape);
    case Relation(_, _, _, _) => RelationJsonDenotes(f);
    case Computed(_, _, _) => ComputedJsonDenotes(f);
  }

  lemma ModelsJsonDenotes(ms: Models)
    ensures DenotesModels(ModelsJson(ms), ms)
  {
    forall k | k in ms
      ensures DenotesModel(ModelJson(ms[k]), ms[k])
    {
      ModelJsonDenotes(ms[k]);
    }
  }

  lemma FieldMapJsonDenotes(fs: map<string, Field>)
    ensures DenotesFieldMap(FieldMapJson(fs), fs)
  {
    forall k | k in fs
      ensures DenotesField(FieldJson(fs[k]), fs[k])
    {
      FieldJsonDenotes(fs[k]);
    }
  }

  lemma FieldsJsonDenotes(fs: Fields)
    ensures DenotesFields(FieldsJson(fs), fs)
  {
    forall owner | owner in fs
      ensures DenotesFieldMap(FieldMapJson(fs[owner]), fs[owner])
    {
      FieldMapJsonDenotes(fs[owner]);
    }
  }

  /** Parsing the serialised form of a manifest returns it exactly when it is well formed, depth limit included. */
  lemma RoundTrip(m: Manifest)
    ensures ParseManifest(ModelsJson(m.models), FieldsJson(m.fields)) == Some(m) <==> WellFormedManifest(m)
  {
    ModelsJsonDenotes(m.models);
    FieldsJsonDenotes(m.fields);
    ParseManifestExact(ModelsJson(m.models), FieldsJson(m.fields), m);
  }
}
