/** Batched, cached resolution gives what resolving one reference at a time would give. */
module GraphqlExecutionProofs {
  import opened Wrappers
  import opened GraphqlModel
  import opened GraphqlShape
  import opened GraphqlValues
  import opened GraphqlSoundness
  import opened DataLoaders
  import opened GraphqlExecution

  // ---------- what every run keeps, failures included ----------

  ghost predicate ProviderOk(d: Definition, l: Loader<Option<Source>>) {
    Inv(l) && (d.mode.Single? ==> forall f :: 0 <= f < |l.flights| ==> |l.flights[f].ids| == 1)
  }

  /** Every id a batch field has been asked for has its parent recorded, also in each batch sent. */
  ghost predicate FieldOk(e: FieldEntry) {
    && Inv(e.loader)
    && (forall id :: id in e.loader.cache ==> id in e.parents)
    && |e.sent| == |e.loader.flights|
    && (forall f, id :: 0 <= f < |e.sent| && id in e.loader.flights[f].ids ==> id in e.sent[f])
  }

  ghost predicate OperationOk(o: Operation) {
    && (forall model :: model in o.providers ==> model in o.models && ProviderOk(o.models[model], o.providers[model]))
    && (forall key :: key in o.fields ==> FieldOk(o.fields[key]))
  }

  lemma ProviderStepKeepsOk(o: Operation, s: Step)
    requires OperationOk(o) && Enabled(o, s) && (s.LoadModel? || s.DispatchModel? || s.SettleModel?)
    ensures ProviderOk(o.models[s.model], Apply(o, s).providers[s.model])
  {
    var l := Provider(o, s.model);
    match s
    case LoadModel(_, id) => LoadKeepsInv(l, id);
    case DispatchModel(_) => DispatchKeepsInv(l, BatchSize(o.models[s.model], |l.queue|));
    case SettleModel(_, f, _) =>
      if ModelAnswer(o, s).Some? { SucceedKeepsInv(l, f, ModelAnswer(o, s).value); } else { RejectKeepsInv(l, f); }
  }

  lemma LoadFieldKeepsOk(e: FieldEntry, id: string, input: Source)
    requires FieldOk(e)
    ensures FieldOk(e.(parents := e.parents[id := input], loader := Load(e.loader, id)))
  {
    LoadKeepsInv(e.loader, id);
  }

  lemma DispatchFieldKeepsOk(e: FieldEntry)
    requires FieldOk(e) && e.loader.queue != []
    ensures ParentsKnown(e)
    ensures FieldOk(e.(loader := Dispatch(e.loader, |e.loader.queue|), sent := e.sent + [e.parents]))
  {
    DispatchKeepsInv(e.loader, |e.loader.queue|);
    assert e.loader.queue[..|e.loader.queue|] == e.loader.queue;
  }

  lemma SettleFieldKeepsOk(o: Operation, s: Step)
    requires OperationOk(o) && Enabled(o, s) && s.SettleField?
    ensures FieldOk(Apply(o, s).fields[s.key])
  {
    var l := o.fields[s.key].loader;
    if FieldAnswer(o, s).Some? { SucceedKeepsInv(l, s.flight, FieldAnswer(o, s).value); } else { RejectKeepsInv(l, s.flight); }
  }

  lemma FieldStepKeepsOk(o: Operation, s: Step)
    requires OperationOk(o) && Enabled(o, s) && (s.LoadField? || s.DispatchField? || s.SettleField?)
    ensures FieldOk(Apply(o, s).fields[s.key])
  {
    match s
    case LoadField(key, args, source, dependencies) =>
      var e := BatchField(o, key, args);
      assert FieldOk(e);
      if Identity(Record(source)).Some? { LoadFieldKeepsOk(e, Identity(Record(source)).value, Project(source, dependencies)); }
    case DispatchField(key) => DispatchFieldKeepsOk(o.fields[key]);
    case SettleField(_, _, _) => SettleFieldKeepsOk(o, s);
  }

  lemma StepTouchesOne(o: Operation, s: Step)
    requires Enabled(o, s)
    ensures Apply(o, s).models == o.models
    ensures s.LoadModel? || s.DispatchModel? || s.SettleModel? ==>
              Apply(o, s).fields == o.fields && s.model in o.models && s.model in Apply(o, s).providers &&
              Apply(o, s).providers == o.providers[s.model := Apply(o, s).providers[s.model]]
    ensures s.LoadField? || s.DispatchField? || s.SettleField? ==>
              Apply(o, s).providers == o.providers && s.key in Apply(o, s).fields &&
              Apply(o, s).fields == o.fields[s.key := Apply(o, s).fields[s.key]]
  {
  }

  lemma StepKeepsOk(o: Operation, s: Step)
    requires OperationOk(o) && Enabled(o, s)
    ensures OperationOk(Apply(o, s))
  {
    StepTouchesOne(o, s);
    if s.LoadModel? || s.DispatchModel? || s.SettleModel? { ProviderStepKeepsOk(o, s); } else { FieldStepKeepsOk(o, s); }
  }

  lemma {:induction false} RunKeepsOk(o: Operation, steps: seq<Step>)
    requires OperationOk(o) && IsRun(o, steps)
    ensures OperationOk(After(o, steps))
    decreases |steps|
  {
    if steps == [] {
    } else {
      StepKeepsOk(o, steps[0]);
      RunKeepsOk(Apply(o, steps[0]), steps[1..]);
    }
  }

  /** In every run the batch function finds the parent of every id queued for a field. */
  lemma QueuedParentsRecorded(models: Models, steps: seq<Step>, key: string)
    requires IsRun(NewOperation(models), steps) && key in After(NewOperation(models), steps).fields
    ensures ParentsKnown(After(NewOperation(models), steps).fields[key])
  {
    RunKeepsOk(NewOperation(models), steps);
  }

  // ---------- refinement of providers ----------

  /** What a provider answers for one id when it is asked for that id alone. */
  type Answers = (string, string) -> JsValue

  /** The reply gives each id it covers the provider's own answer for it. */
  predicate Consistent(o: Operation, s: Step, answers: Answers)
    requires Enabled(o, s)
  {
    s.SettleModel? && s.reply.Some? ==>
      var ids := o.providers[s.model].flights[s.flight].ids;
      match s.reply.value
      case Entries(m) => forall i :: 0 <= i < |ids| && Text(ids[i]) in m ==> m[Text(ids[i])] == answers(s.model, ids[i])
      case Plain(v) => |ids| == 1 ==> v == answers(s.model, ids[0])
  }

  predicate ConsistentRun(o: Operation, steps: seq<Step>, answers: Answers)
    requires IsRun(o, steps)
    decreases |steps|
  {
    steps == [] || (Consistent(o, steps[0], answers) && ConsistentRun(Apply(o, steps[0]), steps[1..], answers))
  }

  /** Resolving one id alone: ask the provider for it and validate the answer. */
  function ResolveAlone(models: Models, answers: Answers, model: string, id: string): Option<Option<Source>>
    requires model in models
  {
    match ValidateSource(models[model], id, answers(model, id))
    case Ok(source) => Some(source)
    case Err(_) => None
  }

  ghost predicate LoaderRefines(models: Models, answers: Answers, model: string, l: Loader<Option<Source>>)
    requires model in models
  {
    forall id :: id in l.cache && l.cache[id].Loaded? ==> ResolveAlone(models, answers, model, id) == Some(l.cache[id].value)
  }

  ghost predicate Refines(o: Operation, answers: Answers) {
    forall model :: model in o.providers ==> model in o.models && LoaderRefines(o.models, answers, model, o.providers[model])
  }

  lemma AnswerRefines(o: Operation, s: Step, answers: Answers)
    requires OperationOk(o) && Enabled(o, s) && s.SettleModel? && Consistent(o, s, answers) && ModelAnswer(o, s).Some?
    ensures var ids := o.providers[s.model].flights[s.flight].ids;
            |ModelAnswer(o, s).value| == |ids| &&
            forall i :: 0 <= i < |ids| ==>
              ResolveAlone(o.models, answers, s.model, ids[i]) == Some(ModelAnswer(o, s).value[i])
  {
    assert ProviderOk(o.models[s.model], o.providers[s.model]);
  }

  lemma SettleRefines(o: Operation, s: Step, answers: Answers)
    requires OperationOk(o) && Refines(o, answers) && Enabled(o, s) && s.SettleModel? && Consistent(o, s, answers)
    ensures LoaderRefines(o.models, answers, s.model, Apply(o, s).providers[s.model])
  {
    if ModelAnswer(o, s).Some? { AnswerRefines(o, s, answers); }
    assert LoaderRefines(o.models, answers, s.model, o.providers[s.model]);
  }

  lemma StepRefines(o: Operation, s: Step, answers: Answers)
    requires OperationOk(o) && Refines(o, answers) && Enabled(o, s) && Consistent(o, s, answers)
    ensures Refines(Apply(o, s), answers)
  {
    StepTouchesOne(o, s);
    if s.SettleModel? { SettleRefines(o, s, answers); }
    else if s.LoadModel? || s.DispatchModel? {
      assert LoaderRefines(o.models, answers, s.model, Provider(o, s.model));
      assert LoaderRefines(o.models, answers, s.model, Apply(o, s).providers[s.model]);
    }
  }

  lemma {:induction false} RunRefines(o: Operation, steps: seq<Step>, answers: Answers)
    requires OperationOk(o) && Refines(o, answers) && IsRun(o, steps) && ConsistentRun(o, steps, answers)
    ensures Refines(After(o, steps), answers) && After(o, steps).models == o.models
    decreases |steps|
  {
    if steps == [] {
    } else {
      StepKeepsOk(o, steps[0]);
      StepTouchesOne(o, steps[0]);
      StepRefines(o, steps[0], answers);
      RunRefines(Apply(o, steps[0]), steps[1..], answers);
    }
  }

  /** Whatever the order, grouping and failures of batches, a loaded id holds what resolving it alone would give. */
  lemma BatchedRefinesAlone(models: Models, steps: seq<Step>, answers: Answers, model: string, id: string)
    requires IsRun(NewOperation(models), steps) && ConsistentRun(NewOperation(models), steps, answers)
    requires var o := After(NewOperation(models), steps);
             model in o.providers && id in o.providers[model].cache && o.providers[model].cache[id].Loaded?
    ensures model in models
    ensures ResolveAlone(models, answers, model, id) ==
            Some(After(NewOperation(models), steps).providers[model].cache[id].value)
  {
    RunRefines(NewOperation(models), steps, answers);
  }

  // ---------- each id is asked for once ----------

  predicate Succeeds(o: Operation, s: Step)
    requires Enabled(o, s)
  {
    (s.SettleModel? ==> ModelAnswer(o, s).Some?) && (s.SettleField? ==> FieldAnswer(o, s).Some?)
  }

  predicate SuccessfulRun(o: Operation, steps: seq<Step>)
    requires IsRun(o, steps)
    decreases |steps|
  {
    steps == [] || (Succeeds(o, steps[0]) && SuccessfulRun(Apply(o, steps[0]), steps[1..]))
  }

  ghost predicate AllClean(o: Operation) {
    && (forall model :: model in o.providers ==> Clean(o.providers[model]))
    && (forall key :: key in o.fields ==> Clean(o.fields[key].loader))
  }

  lemma ProviderStepKeepsClean(o: Operation, s: Step)
    requires OperationOk(o) && AllClean(o) && Enabled(o, s) && Succeeds(o, s)
    requires s.LoadModel? || s.DispatchModel? || s.SettleModel?
    ensures Clean(Apply(o, s).providers[s.model])
  {
    var l := Provider(o, s.model);
    assert ProviderOk(o.models[s.model], l);
    match s
    case LoadModel(_, id) => LoadKeepsInv(l, id);
    case DispatchModel(_) => DispatchKeepsInv(l, BatchSize(o.models[s.model], |l.queue|));
    case SettleModel(_, f, _) => SucceedKeepsInv(l, f, ModelAnswer(o, s).value);
  }

  lemma FieldStepKeepsClean(o: Operation, s: Step)
    requires OperationOk(o) && AllClean(o) && Enabled(o, s) && Succeeds(o, s)
    requires s.LoadField? || s.DispatchField? || s.SettleField?
    ensures Clean(Apply(o, s).fields[s.key].loader)
  {
    match s
    case LoadField(key, args, source, _) =>
      var e := BatchField(o, key, args);
      if Identity(Record(source)).Some? { LoadKeepsInv(e.loader, Identity(Record(source)).value); }
    case DispatchField(key) =>
      DispatchFieldKeepsOk(o.fields[key]);
      DispatchKeepsInv(o.fields[key].loader, |o.fields[key].loader.queue|);
    case SettleField(key, f, _) => SucceedKeepsInv(o.fields[key].loader, f, FieldAnswer(o, s).value);
  }

  lemma StepKeepsClean(o: Operation, s: Step)
    requires OperationOk(o) && AllClean(o) && Enabled(o, s) && Succeeds(o, s)
    ensures AllClean(Apply(o, s))
  {
    StepTouchesOne(o, s);
    if s.LoadModel? || s.DispatchModel? || s.SettleModel? { ProviderStepKeepsClean(o, s); } else { FieldStepKeepsClean(o, s); }
  }

  lemma {:induction false} RunKeepsClean(o: Operation, steps: seq<Step>)
    requires OperationOk(o) && AllClean(o) && IsRun(o, steps) && SuccessfulRun(o, steps)
    ensures AllClean(After(o, steps))
    decreases |steps|
  {
    if steps == [] {
    } else {
      var s := steps[0];
      StepKeepsOk(o, s);
      StepKeepsClean(o, s);
      RunKeepsClean(Apply(o, s), steps[1..]);
    }
  }

  /** While batches succeed, a provider is asked for each id at most once in the whole operation. */
  lemma EachIdOnce(models: Models, steps: seq<Step>, model: string, f: nat, i: nat, g: nat, j: nat)
    requires IsRun(NewOperation(models), steps) && SuccessfulRun(NewOperation(models), steps)
    requires model in After(NewOperation(models), steps).providers
    requires var flights := After(NewOperation(models), steps).providers[model].flights;
             f < |flights| && i < |flights[f].ids| && g < |flights| && j < |flights[g].ids| &&
             flights[f].ids[i] == flights[g].ids[j]
    ensures f == g && i == j
  {
    RunKeepsOk(NewOperation(models), steps);
    RunKeepsClean(NewOperation(models), steps);
    AskedAtMostOnce(After(NewOperation(models), steps).providers[model], f, i, g, j);
  }

  // ---------- refinement of batch fields ----------

  /** What a batch method answers for one parent's projected input when it is asked for that parent alone. */
  type FieldAnswers = (Args, Source) -> JsValue

  predicate FieldConsistent(o: Operation, s: Step, key: string, answers: FieldAnswers)
    requires Enabled(o, s)
  {
    s.SettleField? && s.key == key && s.reply.Some? && s.reply.value.Entries? ==>
      var e, m := o.fields[key], s.reply.value.entries;
      var ids := e.loader.flights[s.flight].ids;
      s.flight < |e.sent| &&
      forall i :: 0 <= i < |ids| && Text(ids[i]) in m ==>
        ids[i] in e.sent[s.flight] && m[Text(ids[i])] == answers(e.args, e.sent[s.flight][ids[i]])
  }

  /** Every call of the field gives the same parent id the same input; its arguments are its own. */
  predicate Uniform(s: Step, key: string, inputOf: string -> Source) {
    s.LoadField? && s.key == key && Identity(Record(s.source)).Some? ==>
      Project(s.source, s.dependencies) == inputOf(Identity(Record(s.source)).value)
  }

  predicate UniformRun(o: Operation, steps: seq<Step>, key: string, inputOf: string -> Source, answers: FieldAnswers)
    requires IsRun(o, steps)
    decreases |steps|
  {
    steps == [] ||
    (Uniform(steps[0], key, inputOf) && FieldConsistent(o, steps[0], key, answers) &&
     UniformRun(Apply(o, steps[0]), steps[1..], key, inputOf, answers))
  }

  ghost predicate EntryRefines(e: FieldEntry, inputOf: string -> Source, answers: FieldAnswers) {
    && (forall id :: id in e.parents ==> e.parents[id] == inputOf(id))
    && (forall f, id :: 0 <= f < |e.sent| && id in e.sent[f] ==> e.sent[f][id] == inputOf(id))
    && (forall id :: id in e.loader.cache && e.loader.cache[id].Loaded? ==>
          e.loader.cache[id].value == answers(e.args, inputOf(id)))
  }

  lemma SettleFieldRefines(o: Operation, s: Step, inputOf: string -> Source, answers: FieldAnswers)
    requires Enabled(o, s) && s.SettleField? && FieldConsistent(o, s, s.key, answers)
    requires EntryRefines(o.fields[s.key], inputOf, answers)
    ensures EntryRefines(Apply(o, s).fields[s.key], inputOf, answers)
  {
    var e := o.fields[s.key];
    if FieldAnswer(o, s).Some? {
      var ids, values := e.loader.flights[s.flight].ids, FieldAnswer(o, s).value;
    }
  }

  lemma LoadFieldRefines(o: Operation, s: Step, inputOf: string -> Source, answers: FieldAnswers)
    requires s.LoadField? && Uniform(s, s.key, inputOf)
    requires s.key in o.fields ==> EntryRefines(o.fields[s.key], inputOf, answers)
    ensures EntryRefines(Apply(o, s).fields[s.key], inputOf, answers)
  {
  }

  lemma FieldStepRefines(o: Operation, s: Step, inputOf: string -> Source, answers: FieldAnswers)
    requires OperationOk(o) && Enabled(o, s) && (s.LoadField? || s.DispatchField? || s.SettleField?)
    requires Uniform(s, s.key, inputOf) && FieldConsistent(o, s, s.key, answers)
    requires s.key in o.fields ==> EntryRefines(o.fields[s.key], inputOf, answers)
    ensures EntryRefines(Apply(o, s).fields[s.key], inputOf, answers)
  {
    match s
    case LoadField(_, _, _, _) => LoadFieldRefines(o, s, inputOf, answers);
    case DispatchField(key) => DispatchFieldKeepsOk(o.fields[key]);
    case SettleField(_, _, _) => SettleFieldRefines(o, s, inputOf, answers);
  }

  lemma {:induction false} FieldRunRefines(o: Operation, steps: seq<Step>, key: string,
                                           inputOf: string -> Source, answers: FieldAnswers)
    requires OperationOk(o) && IsRun(o, steps) && UniformRun(o, steps, key, inputOf, answers)
    requires key in o.fields ==> EntryRefines(o.fields[key], inputOf, answers)
    ensures key in After(o, steps).fields ==> EntryRefines(After(o, steps).fields[key], inputOf, answers)
    decreases |steps|
  {
    if steps == [] {
    } else {
      var s := steps[0];
      StepKeepsOk(o, s);
      StepTouchesOne(o, s);
      if (s.LoadField? || s.DispatchField? || s.SettleField?) && s.key == key {
        FieldStepRefines(o, s, inputOf, answers);
      }
      FieldRunRefines(Apply(o, s), steps[1..], key, inputOf, answers);
    }
  }

  /** The arguments of the first call stay those of every later batch, whatever later calls pass. */
  lemma {:induction false} FirstArgumentsStay(o: Operation, steps: seq<Step>, key: string)
    requires IsRun(o, steps) && key in o.fields
    ensures key in After(o, steps).fields && After(o, steps).fields[key].args == o.fields[key].args
    decreases |steps|
  {
    if steps == [] {
    } else {
      StepTouchesOne(o, steps[0]);
      FirstArgumentsStay(Apply(o, steps[0]), steps[1..], key);
    }
  }

  /** The arguments of the first call of the field. */
  function FirstArguments(steps: seq<Step>, key: string): Option<Args> {
    if steps == [] then None
    else if steps[0].LoadField? && steps[0].key == key then Some(steps[0].args)
    else FirstArguments(steps[1..], key)
  }

  lemma {:induction false} EntryHasFirstArguments(o: Operation, steps: seq<Step>, key: string)
    requires IsRun(o, steps) && key !in o.fields && key in After(o, steps).fields
    ensures FirstArguments(steps, key) == Some(After(o, steps).fields[key].args)
    decreases |steps|
  {
    var s := steps[0];
    StepTouchesOne(o, s);
    if s.LoadField? && s.key == key {
      FirstArgumentsStay(Apply(o, s), steps[1..], key);
    } else {
      EntryHasFirstArguments(Apply(o, s), steps[1..], key);
    }
  }

  /** A run cannot tell apart batch methods that differ only on arguments other than the first ones. */
  lemma {:induction false} OnlyFirstArgumentsAsked(o: Operation, steps: seq<Step>, key: string, args: Args,
                                                   inputOf: string -> Source, answers: FieldAnswers, other: FieldAnswers)
    requires IsRun(o, steps) && UniformRun(o, steps, key, inputOf, answers)
    requires forall x: Args, input: Source :: x != args ==> other(x, input) == answers(x, input)
    requires if key in o.fields then o.fields[key].args != args else FirstArguments(steps, key) != Some(args)
    ensures UniformRun(o, steps, key, inputOf, other)
    decreases |steps|
  {
    if steps == [] {
    } else {
      StepTouchesOne(o, steps[0]);
      OnlyFirstArgumentsAsked(Apply(o, steps[0]), steps[1..], key, args, inputOf, answers, other);
    }
  }

  /** What was loaded is what a call with these arguments for that parent alone gives, whatever batch method fits the run. */
  ghost predicate GivesAlone(models: Models, steps: seq<Step>, key: string, id: string, args: Args,
                             inputOf: string -> Source, value: JsValue)
    requires IsRun(NewOperation(models), steps)
  {
    forall answers: FieldAnswers :: UniformRun(NewOperation(models), steps, key, inputOf, answers) ==>
      value == answers(args, inputOf(id))
  }

  /**
   A batch field loads for each parent what calling it with the first call's arguments for that parent
   alone gives.  So a call refines calling it alone exactly when its arguments are those of the first
   call of the operation: a call with others is given what the first ones give.
   */
  lemma BatchedFieldRefinesAlone(models: Models, steps: seq<Step>, key: string, id: string, args: Args,
                                 inputOf: string -> Source, answers: FieldAnswers)
    requires IsRun(NewOperation(models), steps) && UniformRun(NewOperation(models), steps, key, inputOf, answers)
    requires var o := After(NewOperation(models), steps);
             key in o.fields && id in o.fields[key].loader.cache && o.fields[key].loader.cache[id].Loaded?
    ensures FirstArguments(steps, key).Some?
    ensures var value, first := After(NewOperation(models), steps).fields[key].loader.cache[id].value, FirstArguments(steps, key).value;
            && value == answers(first, inputOf(id))
            && (GivesAlone(models, steps, key, id, args, inputOf, value) <==> args == first)
  {
    var o := NewOperation(models);
    var value := After(o, steps).fields[key].loader.cache[id].value;
    EntryHasFirstArguments(o, steps, key);
    forall any: FieldAnswers | UniformRun(o, steps, key, inputOf, any)
      ensures value == any(FirstArguments(steps, key).value, inputOf(id))
    {
      FieldRunRefines(o, steps, key, inputOf, any);
    }
    if args != FirstArguments(steps, key).value {
      var different := if value.Null? then Undefined else Null;
      var other: FieldAnswers := (x: Args, input: Source) => if x == args then different else answers(x, input);
      OnlyFirstArgumentsAsked(o, steps, key, args, inputOf, answers, other);
      assert other(args, inputOf(id)) != value;
    }
  }

  // ---------- batch fields of hydrated models ----------

  /** The parent is what the operation's loader has loaded for its id, and the field always declares the same dependencies. */
  predicate HydratedParent(o: Operation, s: Step, key: string, model: string, dependencies: seq<string>) {
    s.LoadField? && s.key == key ==>
      && s.dependencies == dependencies
      && var id := Identity(Record(s.source));
      && id.Some? && model in o.providers && id.value in o.providers[model].cache
      && o.providers[model].cache[id.value].Loaded? && o.providers[model].cache[id.value].value == Some(s.source)
  }

  predicate HydratedRun(o: Operation, steps: seq<Step>, key: string, model: string, dependencies: seq<string>, answers: FieldAnswers)
    requires IsRun(o, steps)
    decreases |steps|
  {
    steps == [] ||
    (HydratedParent(o, steps[0], key, model, dependencies) && FieldConsistent(o, steps[0], key, answers) &&
     HydratedRun(Apply(o, steps[0]), steps[1..], key, model, dependencies, answers))
  }

  /** The model's source for an id, resolved alone. */
  function SourceAlone(models: Models, answers: Answers, model: string, id: string): Option<Source>
    requires model in models
  {
    match ResolveAlone(models, answers, model, id)
    case Some(Some(source)) => Some(source)
    case _ => None
  }

  function InputAlone(models: Models, answers: Answers, model: string, dependencies: seq<string>): string -> Source
    requires model in models
  {
    (id: string) =>
      match SourceAlone(models, answers, model, id)
      case Some(source) => Project(source, dependencies)
      case None => map[]
  }

  /** Every recorded parent exists when it is resolved alone. */
  ghost predicate ParentsExist(o: Operation, key: string, answers: Answers, model: string)
    requires model in o.models
  {
    key in o.fields ==> forall id :: id in o.fields[key].parents ==> SourceAlone(o.models, answers, model, id).Some?
  }

  /** A hydrated parent gives the field the input that resolving it alone would give. */
  lemma HydratedStepIsUniform(o: Operation, s: Step, key: string, model: string, dependencies: seq<string>, answers: Answers)
    requires model in o.models && OperationOk(o) && Refines(o, answers) && Enabled(o, s)
    requires HydratedParent(o, s, key, model, dependencies) && ParentsExist(o, key, answers, model)
    ensures Uniform(s, key, InputAlone(o.models, answers, model, dependencies))
    ensures Apply(o, s).models == o.models && ParentsExist(Apply(o, s), key, answers, model)
  {
    StepTouchesOne(o, s);
    if s.LoadField? && s.key == key {
      HydratedSourceIsAlone(o, s, key, model, dependencies, answers);
      LoadKeepsParents(o, s, answers, model);
    }
  }

  lemma HydratedSourceIsAlone(o: Operation, s: Step, key: string, model: string, dependencies: seq<string>, answers: Answers)
    requires model in o.models && Refines(o, answers) && HydratedParent(o, s, key, model, dependencies)
    requires s.LoadField? && s.key == key
    ensures SourceAlone(o.models, answers, model, Identity(Record(s.source)).value) == Some(s.source)
  {
    assert LoaderRefines(o.models, answers, model, o.providers[model]);
  }

  lemma LoadKeepsParents(o: Operation, s: Step, answers: Answers, model: string)
    requires model in o.models && s.LoadField? && Identity(Record(s.source)).Some? && ParentsExist(o, s.key, answers, model)
    requires SourceAlone(o.models, answers, model, Identity(Record(s.source)).value).Some?
    ensures ParentsExist(Apply(o, s), s.key, answers, model)
  {
  }

  lemma {:induction false} HydratedRunIsUniform(o: Operation, steps: seq<Step>, key: string, model: string, dependencies: seq<string>,
                                                answers: Answers, fieldAnswers: FieldAnswers)
    requires model in o.models && OperationOk(o) && Refines(o, answers) && ParentsExist(o, key, answers, model)
    requires IsRun(o, steps) && ConsistentRun(o, steps, answers)
    requires HydratedRun(o, steps, key, model, dependencies, fieldAnswers)
    ensures UniformRun(o, steps, key, InputAlone(o.models, answers, model, dependencies), fieldAnswers)
    ensures After(o, steps).models == o.models && ParentsExist(After(o, steps), key, answers, model)
    decreases |steps|
  {
    if steps == [] {
    } else {
      StepKeepsOk(o, steps[0]);
      StepRefines(o, steps[0], answers);
      HydratedStepIsUniform(o, steps[0], key, model, dependencies, answers);
      HydratedRunIsUniform(Apply(o, steps[0]), steps[1..], key, model, dependencies, answers, fieldAnswers);
    }
  }

  /**
   For parents the operation itself has hydrated, whatever the order and grouping of model and field
   batches, a batch field holds for each parent what its method gives alone for the source its provider
   gives alone, with the arguments of the first call.
   */
  lemma HydratedFieldRefinesAlone(models: Models, steps: seq<Step>, key: string, model: string, dependencies: seq<string>,
                                  id: string, answers: Answers, fieldAnswers: FieldAnswers)
    requires model in models && IsRun(NewOperation(models), steps) && ConsistentRun(NewOperation(models), steps, answers)
    requires HydratedRun(NewOperation(models), steps, key, model, dependencies, fieldAnswers)
    requires var o := After(NewOperation(models), steps);
             key in o.fields && id in o.fields[key].loader.cache && o.fields[key].loader.cache[id].Loaded?
    ensures FirstArguments(steps, key).Some? && SourceAlone(models, answers, model, id).Some?
    ensures After(NewOperation(models), steps).fields[key].loader.cache[id].value ==
            fieldAnswers(FirstArguments(steps, key).value, Project(SourceAlone(models, answers, model, id).value, dependencies))
  {
    var o := NewOperation(models);
    HydratedRunIsUniform(o, steps, key, model, dependencies, answers, fieldAnswers);
    BatchedFieldRefinesAlone(models, steps, key, id, map[], InputAlone(models, answers, model, dependencies), fieldAnswers);
    RunKeepsOk(o, steps);
    assert id in After(o, steps).fields[key].parents;
  }

  // ---------- hydration ----------

  /** What the operation's loader gives for an id: None until its batch has succeeded. */
  function Loads(l: Loader<Option<Source>>): string -> Option<Option<Source>> {
    (id: string) => if id in l.cache && l.cache[id].Loaded? then Some(l.cache[id].value) else None
  }

  predicate IsLoaded(l: Loader<Option<Source>>, v: JsValue) {
    Identity(v).Some? ==> Identity(v).value in l.cache && l.cache[Identity(v).value].Loaded?
  }

  predicate ReferencesLoaded(l: Loader<Option<Source>>, v: JsValue) {
    IsLoaded(l, v) && (v.List? ==> forall i :: 0 <= i < |v.items| ==> IsLoaded(l, v.items[i]))
  }

  /** Once its references are loaded, a value hydrates as it would by resolving each reference alone. */
  lemma HydrationRefinesAlone(models: Models, steps: seq<Step>, answers: Answers, model: string, v: JsValue, shape: Shape)
    requires IsRun(NewOperation(models), steps) && ConsistentRun(NewOperation(models), steps, answers)
    requires var o := After(NewOperation(models), steps); model in o.providers && ReferencesLoaded(o.providers[model], v)
    ensures model in models
    ensures Hydrate(Loads(After(NewOperation(models), steps).providers[model]), v, shape) ==
            Hydrate((id: string) => ResolveAlone(models, answers, model, id), v, shape)
  {
    RunRefines(NewOperation(models), steps, answers);
    var l := After(NewOperation(models), steps).providers[model];
    assert LoaderRefines(models, answers, model, l);
  }

  predicate HydratedOk(h: Hydrated) {
    match h
    case HydratedValue(v) => v.Some?
    case HydratedItems(items) => forall i :: 0 <= i < |items| ==> items[i].Some?
  }

  function HydratedResult(h: Hydrated): JsValue
    requires HydratedOk(h)
  {
    match h
    case HydratedValue(v) => v.value
    case HydratedItems(items) => List(seq(|items|, i requires 0 <= i < |items| => items[i].value))
  }

  lemma ObjectCompletes(s: Schema, target: string, v: JsValue, nullable: bool)
    requires target in s && (v.Record? || (nullable && v.Null?))
    ensures Complete(s, Strip(NonNull(Named(target)), nullable), v) == Done(Response(v), 0)
  {
  }

  /** A relation whose references all resolve completes under its rendered type: null appears only where it may. */
  lemma HydratedCompletes(s: Schema, target: string, load: string -> Option<Option<Source>>, v: JsValue, shape: Shape)
    requires target in s && HydratedOk(Hydrate(load, v, shape))
    ensures var r := HydratedResult(Hydrate(load, v, shape));
            && Complete(s, ResultType(target, shape), r) == Done(Response(r), 0)
            && (r.Null? ==> shape.nullable)
            && (r.List? ==> shape.Many? && forall i :: 0 <= i < |r.items| && r.items[i].Null? ==> shape.itemNullable)
  {
    var r := HydratedResult(Hydrate(load, v, shape));
    match shape
    case One(nullable) => ObjectCompletes(s, target, r, nullable);
    case Many(nullable, itemNullable) =>
      var item := Strip(NonNull(Named(target)), itemNullable);
      if r.List? {
        forall i | 0 <= i < |r.items|
          ensures Complete(s, item, r.items[i]) == Done(Response(r.items[i]), 0)
        {
          ObjectCompletes(s, target, r.items[i], itemNullable);
        }
        ItemsComplete(s, item, r.items);
      }
  }
}
