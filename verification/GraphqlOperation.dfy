/** The operation object of the model runtime: maps of loaders that its methods create and update in place. */
module GraphqlOperations {
  import opened Wrappers
  import opened GraphqlModel
  import opened GraphqlValues
  import opened DataLoaders
  import X = GraphqlExecution

  class ModelOperation {
    const models: Models
    var providers: map<string, Loader<Option<Source>>>
    var fields: map<string, X.FieldEntry>

    ghost function State(): X.Operation
      reads this
    {
      X.Operation(models, providers, fields)
    }

    constructor (models: Models)
      ensures this.models == models && State() == X.NewOperation(models)
    {
      this.models := models;
      providers, fields := map[], map[];
    }

    /** provider(): one loader per model for the life of the operation; false for a model without a definition. */
    method Provider(model: string) returns (ok: bool)
      modifies this`providers
      ensures ok <==> model in old(providers) || model in models
      ensures providers == if ok then old(providers)[model := X.Provider(old(State()), model)] else old(providers)
    {
      if model in providers { return true; }
      if model !in models { return false; }
      providers := providers[model := NewLoader()];
      return true;
    }

    method LoadModel(model: string, id: string)
      requires model in models
      modifies this
      ensures State() == X.Apply(old(State()), X.LoadModel(model, id))
    {
      var ok := Provider(model);
      providers := providers[model := Load(providers[model], id)];
    }

    method SettleModel(model: string, flight: nat, reply: Option<X.Reply>) returns (ok: bool)
      requires X.Enabled(State(), X.SettleModel(model, flight, reply))
      modifies this
      ensures ok <==> X.ModelAnswer(old(State()), X.SettleModel(model, flight, reply)).Some?
      ensures State() == X.Apply(old(State()), X.SettleModel(model, flight, reply))
    {
      var l := providers[model];
      var ids := l.flights[flight].ids;
      var values: Option<seq<Option<Source>>> := None;
      if reply.Some? {
        if models[model].mode.Single? && |ids| == 1 {
          values := X.ProviderCall(models[model], ids, reply.value);
        } else {
          values := ValidateBatch(models[model], ids, reply.value);
        }
      }
      providers := providers[model := if values.Some? then Succeed(l, flight, values.value) else Reject(l, flight)];
      return values.Some?;
    }

    /** Validates a batch id by id and gives up at the first entry its model does not accept. */
    static method ValidateBatch(d: Definition, ids: seq<string>, reply: X.Reply) returns (r: Option<seq<Option<Source>>>)
      ensures r == X.ProviderBatch(d, ids, reply)
    {
      var entries := X.CompleteMap(reply, ids);
      if entries.None? { return None; }
      var m := entries.value;
      var values: seq<Option<Source>> := [];
      for i := 0 to |ids|
        invariant |values| == i
        invariant forall k :: 0 <= k < i ==>
                    Text(ids[k]) in m && ValidateSource(d, ids[k], m[Text(ids[k])]) == Ok(values[k])
      {
        if Text(ids[i]) !in m { return None; }
        var source := ValidateSource(d, ids[i], m[Text(ids[i])]);
        if source.Err? { return None; }
        values := values + [source.value];
      }
      assert X.ProviderBatch(d, ids, reply).Some?;
      assert values == X.ProviderBatch(d, ids, reply).value;
      return Some(values);
    }

    /** batchField(): the first call of a field decides its arguments. */
    method BatchField(key: string, args: X.Args)
      modifies this`fields
      ensures fields == old(fields)[key := X.BatchField(old(State()), key, args)]
    {
      if key in fields { return; }
      fields := fields[key := X.FieldEntry(args, map[], NewLoader(), [])];
    }

    /** loadBatchField(): records the parent before its id can be queued; false for a parent without an id. */
    method LoadBatchField(key: string, args: X.Args, source: Source, dependencies: seq<string>) returns (ok: bool)
      modifies this
      ensures ok <==> X.Identity(Record(source)).Some?
      ensures State() == X.Apply(old(State()), X.LoadField(key, args, source, dependencies))
    {
      var input := X.Project(source, dependencies);
      BatchField(key, args);
      var id := X.Identity(Record(source));
      if id.None? { return false; }
      var e := fields[key];
      fields := fields[key := e.(parents := e.parents[id.value := input], loader := Load(e.loader, id.value))];
      return true;
    }

    /** The inputs of a field batch, in the order of its ids; None if some parent is missing. */
    method Inputs(key: string) returns (inputs: Option<seq<Source>>)
      requires key in fields
      ensures inputs.Some? <==> X.ParentsKnown(fields[key])
      ensures inputs.Some? ==> var e := fields[key];
                |inputs.value| == |e.loader.queue| &&
                forall i :: 0 <= i < |e.loader.queue| ==> inputs.value[i] == e.parents[e.loader.queue[i]]
    {
      var e := fields[key];
      var collected: seq<Source> := [];
      for i := 0 to |e.loader.queue|
        invariant |collected| == i
        invariant forall k :: 0 <= k < i ==> e.loader.queue[k] in e.parents && collected[k] == e.parents[e.loader.queue[k]]
      {
        if e.loader.queue[i] !in e.parents { return None; }
        collected := collected + [e.parents[e.loader.queue[i]]];
      }
      return Some(collected);
    }

    method DispatchField(key: string) returns (inputs: Option<seq<Source>>)
      requires X.Enabled(State(), X.DispatchField(key))
      modifies this`fields
      ensures inputs.Some? <==> X.ParentsKnown(old(fields[key]))
      ensures State() == X.Apply(old(State()), X.DispatchField(key))
    {
      inputs := Inputs(key);
      var e := fields[key];
      var sent := Dispatch(e.loader, |e.loader.queue|);
      var loader := if inputs.Some? then sent else Reject(sent, |e.loader.flights|);
      fields := fields[key := e.(loader := loader, sent := e.sent + [e.parents])];
    }
  }
}
