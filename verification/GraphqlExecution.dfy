/**
 Resolving models within one GraphQL operation (packages/graphql/src/graphql-model-runtime.lib.ts):
 providers and batch fields share loaders, loads arrive in any order, batches are cut and answered in
 any order, and every answer is checked before it is used.
 */
module GraphqlExecution {
  import opened Wrappers
  import opened GraphqlModel
  import opened GraphqlValues
  import opened DataLoaders

  /** What a provider or batch method settles to: the entries of a Map, or any other value. */
  datatype Reply = Entries(entries: map<JsValue, JsValue>) | Plain(value: JsValue)

  function Ids(ids: seq<string>): set<JsValue> {
    set id | id in ids :: Text(id)
  }

  /** completeMap: a Map without promises, of the right size, whose keys were all requested. */
  function CompleteMap(reply: Reply, ids: seq<string>): Option<map<JsValue, JsValue>> {
    if reply.Plain? then None
    else
      var m := reply.entries;
      if (exists k :: k in m && m[k].Promised?) || |m| != |Ids(ids)| || exists k :: k in m && k !in Ids(ids) then None
      else Some(m)
  }

  /** Size and membership together force the returned keys to be exactly the requested ids. */
  lemma CompleteMapExact(reply: Reply, ids: seq<string>)
    ensures CompleteMap(reply, ids).Some? <==>
            && reply.Entries? && reply.entries.Keys == Ids(ids)
            && forall k :: k in reply.entries ==> !reply.entries[k].Promised?
    ensures CompleteMap(reply, ids).Some? ==> CompleteMap(reply, ids).value == reply.entries
  {
    if reply.Entries? {
      var m := reply.entries;
      assert |m| == |m.Keys|;
      if m.Keys <= Ids(ids) && |m.Keys| == |Ids(ids)| { SameSize(m.Keys, Ids(ids)); }
    }
  }

  lemma {:induction false} SameSize<T>(a: set<T>, b: set<T>)
    requires a <= b && |a| == |b|
    ensures a == b
  {
    if a != b {
      var x :| x in b && x !in a;
      SubsetSize(a, b - {x});
    }
  }

  lemma {:induction false} SubsetSize<T>(a: set<T>, b: set<T>)
    requires a <= b
    ensures |a| <= |b|
  {
    if a != {} {
      var x :| x in a;
      SubsetSize(a - {x}, b - {x});
    }
  }

  /** A single-mode call: the value is validated for the one id; a Map has no id of its own. */
  function ProviderCall(d: Definition, ids: seq<string>, reply: Reply): Option<seq<Option<Source>>>
    requires |ids| == 1
  {
    if reply.Entries? || ValidateSource(d, ids[0], reply.value).Err? then None
    else Some([ValidateSource(d, ids[0], reply.value).value])
  }

  /** One provider batch: every id is validated against its own entry; one bad entry fails the batch. */
  function ProviderBatch(d: Definition, ids: seq<string>, reply: Reply): Option<seq<Option<Source>>> {
    match CompleteMap(reply, ids)
    case None => None
    case Some(m) =>
      if exists i :: 0 <= i < |ids| && (Text(ids[i]) !in m || ValidateSource(d, ids[i], m[Text(ids[i])]).Err?) then None
      else Some(seq(|ids|, i requires 0 <= i < |ids| => ValidateSource(d, ids[i], m[Text(ids[i])]).value))
  }

  /** One batch of a computed or relation field: the entries themselves, by id. */
  function FieldBatch(ids: seq<string>, reply: Reply): Option<seq<JsValue>> {
    match CompleteMap(reply, ids)
    case None => None
    case Some(m) =>
      if exists i :: 0 <= i < |ids| && Text(ids[i]) !in m then None
      else Some(seq(|ids|, i requires 0 <= i < |ids| => m[Text(ids[i])]))
  }

  type Args = map<string, JsValue>

  /**
   A batch field keeps the arguments of the call that created it, and the parents recorded so far.
   `sent` lists, for an observer, the parents as they were when each batch was dispatched.
   */
  datatype FieldEntry = FieldEntry(args: Args, parents: map<string, Source>, loader: Loader<JsValue>,
                                   sent: seq<map<string, Source>>)

  datatype Operation = Operation(
    models: Models,
    providers: map<string, Loader<Option<Source>>>,
    fields: map<string, FieldEntry>)

  function NewOperation(models: Models): Operation {
    Operation(models, map[], map[])
  }

  /** project: the declared dependencies the parent has. */
  function Project(parent: Source, dependencies: seq<string>): Source {
    map key | key in parent && key in dependencies :: parent[key]
  }

  /** identity of a record: its string id. */
  function Identity(v: JsValue): Option<string> {
    if v.Record? && "id" in v.fields && v.fields["id"].Text? then Some(v.fields["id"].s) else None
  }

  datatype Step =
    | LoadModel(model: string, id: string)
    | DispatchModel(model: string)
    | SettleModel(model: string, flight: nat, reply: Option<Reply>)
    | LoadField(key: string, args: Args, source: Source, dependencies: seq<string>)
    | DispatchField(key: string)
    | SettleField(key: string, flight: nat, reply: Option<Reply>)

  function Provider(o: Operation, model: string): Loader<Option<Source>> {
    if model in o.providers then o.providers[model] else NewLoader()
  }

  function BatchField(o: Operation, key: string, args: Args): FieldEntry {
    if key in o.fields then o.fields[key] else FieldEntry(args, map[], NewLoader(), [])
  }

  /** How many keys one call of the batch function gets. */
  function BatchSize(d: Definition, queued: nat): nat {
    if d.mode.Batch? then queued else 1
  }

  predicate OpenFlight<V>(l: Loader<V>, f: nat) {
    f < |l.flights| && l.flights[f].open
  }

  predicate Enabled(o: Operation, s: Step) {
    match s
    case LoadModel(model, _) => model in o.models
    case DispatchModel(model) => model in o.models && model in o.providers && o.providers[model].queue != []
    case SettleModel(model, f, _) => model in o.models && model in o.providers && OpenFlight(o.providers[model], f)
    case LoadField(_, _, _, _) => true
    case DispatchField(key) => key in o.fields && o.fields[key].loader.queue != []
    case SettleField(key, f, _) => key in o.fields && OpenFlight(o.fields[key].loader, f)
  }

  /** What a batch settles to: None when the call failed or its answer was refused. */
  function ModelAnswer(o: Operation, s: Step): Option<seq<Option<Source>>>
    requires s.SettleModel? && Enabled(o, s)
  {
    var d, ids := o.models[s.model], o.providers[s.model].flights[s.flight].ids;
    if s.reply.None? then None
    else if d.mode.Single? && |ids| == 1 then ProviderCall(d, ids, s.reply.value)
    else ProviderBatch(d, ids, s.reply.value)
  }

  function FieldAnswer(o: Operation, s: Step): Option<seq<JsValue>>
    requires s.SettleField? && Enabled(o, s)
  {
    if s.reply.None? then None else FieldBatch(o.fields[s.key].loader.flights[s.flight].ids, s.reply.value)
  }

  /** Every parent the batch function looks up has been recorded. */
  predicate ParentsKnown(e: FieldEntry) {
    forall id :: id in e.loader.queue ==> id in e.parents
  }

  function Apply(o: Operation, s: Step): Operation
    requires Enabled(o, s)
  {
    match s
    case LoadModel(model, id) => o.(providers := o.providers[model := Load(Provider(o, model), id)])
    case DispatchModel(model) =>
      var l := o.providers[model];
      o.(providers := o.providers[model := Dispatch(l, BatchSize(o.models[model], |l.queue|))])
    case SettleModel(model, f, _) =>
      (match ModelAnswer(o, s)
       case Some(values) => o.(providers := o.providers[model := Succeed(o.providers[model], f, values)])
       case None => o.(providers := o.providers[model := Reject(o.providers[model], f)]))
    case LoadField(key, args, source, dependencies) =>
      var e := BatchField(o, key, args);
      (match Identity(Record(source))
       case None => o.(fields := o.fields[key := e])
       case Some(id) =>
         var parents := e.parents[id := Project(source, dependencies)];
         o.(fields := o.fields[key := e.(parents := parents, loader := Load(e.loader, id))]))
    case DispatchField(key) =>
      // A missing parent would reject the batch before the field is invoked.
      var e := o.fields[key];
      var sent := Dispatch(e.loader, |e.loader.queue|);
      o.(fields := o.fields[key := e.(loader := if ParentsKnown(e) then sent else Reject(sent, |e.loader.flights|),
                                      sent := e.sent + [e.parents])])
    case SettleField(key, f, _) =>
      (match FieldAnswer(o, s)
       case Some(values) => o.(fields := o.fields[key := o.fields[key].(loader := Succeed(o.fields[key].loader, f, values))])
       case None => o.(fields := o.fields[key := o.fields[key].(loader := Reject(o.fields[key].loader, f))]))
  }

  predicate IsRun(o: Operation, steps: seq<Step>)
    decreases |steps|
  {
    steps == [] || (Enabled(o, steps[0]) && IsRun(Apply(o, steps[0]), steps[1..]))
  }

  function After(o: Operation, steps: seq<Step>): Operation
    requires IsRun(o, steps)
    decreases |steps|
  {
    if steps == [] then o else After(Apply(o, steps[0]), steps[1..])
  }

  // ---------- hydration ----------

  /** A reference resolves through `load`: None when the load failed, Some(None) for a known absence. */
  function HydrateOne(load: string -> Option<Option<Source>>, v: JsValue, nullable: bool): Option<JsValue> {
    if v.Null? && nullable then Some(Null)
    else
      match Identity(v)
      case None => None
      case Some(id) =>
        match load(id)
        case None => None
        case Some(None) => if nullable then Some(Null) else None
        case Some(Some(source)) => Some(Record(source))
  }

  /** None is an error; the items of a list settle one by one. */
  datatype Hydrated = HydratedValue(value: Option<JsValue>) | HydratedItems(items: seq<Option<JsValue>>)

  function Hydrate(load: string -> Option<Option<Source>>, v: JsValue, shape: Shape): Hydrated {
    match shape
    case One(nullable) => HydratedValue(HydrateOne(load, v, nullable))
    case Many(nullable, itemNullable) =>
      if v.Null? && nullable then HydratedValue(Some(Null))
      else if !v.List? then HydratedValue(None)
      else HydratedItems(seq(|v.items|, i requires 0 <= i < |v.items| => HydrateOne(load, v.items[i], itemNullable)))
  }
}
