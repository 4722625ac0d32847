/**
 * The service in front of the remote MindsDB client: creating, querying, adjusting, retraining
 * and deleting models of the current project.
 */
module Service {
  import opened Wrappers
  import opened MindsdbModels
  import opened Dto

  /** A model on the remote service. Model versions are not distinguished. */
  datatype ModelRef = ModelRef(name: string, project: string)

  /** A request sent to the remote client. */
  datatype Call =
    | GetModel(name: string, project: string, version: Option<int>)
    | GetAllViews(project: string)
    | CreateView(viewName: string, project: string, select: string)
    | TrainModel(modelName: string, targetColumn: string, project: string, options: TrainingOptions)
    | Query(model: ModelRef, predict: PredictOptions)
    | BatchQuery(model: ModelRef, predict: PredictOptions)
    | Adjust(model: ModelRef, integration: string, definition: ModelDef, request: Option<FinetuneRequest>)
    | RetrainModel(modelName: string, targetColumn: string, project: string, retrain: Option<Json>)
    | DeleteModel(modelName: string, project: string)

  /** What the remote service holds, and every request it has been sent. */
  datatype World = World(models: set<ModelRef>, views: map<string, seq<string>>, log: seq<Call>)

  /** The names of a project's views. */
  function ViewsOf(w: World, project: string): seq<string> {
    if project in w.views then w.views[project] else []
  }

  /** The world after a request that changes nothing remote. */
  function Logged(w: World, c: Call): (w': World)
    ensures w'.models == w.models && w'.views == w.views && w'.log == w.log + [c]
  {
    w.(log := w.log + [c])
  }

  /** `{ integration: project, ...trainingOptions }`: the definition's options, with the project
      as the integration when the definition names none. */
  function TrainingPayload(project: string, opts: TrainingOptions): (p: TrainingOptions)
    ensures p.integration.Some?
    ensures opts.integration.Some? ==> p == opts
    ensures opts.integration.None? ==> p.integration == Some(project)
    ensures p.(integration := opts.integration) == opts
  {
    opts.(integration := Some(opts.integration.GetOr(project)))
  }

  /** `findIndex(v => v.name === wanted) !== -1`: a missing name matches no view. */
  predicate ViewExists(names: seq<string>, wanted: Option<string>) {
    wanted.Some? && wanted.value in names
  }

  /** The world after the view step of `create`, entered with `w` the world before `create` and
      `w1` the world after its first lookup. */
  function ViewStep(w1: World, def: ModelDef, project: string): (w2: World)
    ensures w2.models == w1.models
    ensures |w2.log| >= |w1.log| && w2.log[..|w1.log|] == w1.log
    ensures forall p :: p != project ==> ViewsOf(w2, p) == ViewsOf(w1, p)
  {
    match def.view
    case None => w1
    case Some(view) =>
      var listed := Logged(w1, GetAllViews(project));
      if ViewExists(ViewsOf(w1, project), view.name) then listed
      else
        var viewName := view.name.GetOr(def.name);
        Logged(listed, CreateView(viewName, project, view.select))
          .(views := w1.views[project := ViewsOf(w1, project) + [viewName]])
  }

  /** `create(dto)`: the world after it and what it returns. */
  function CreateSpec(w: World, defs: map<string, ModelDef>, project: string, name: string)
    : (r: (World, Result<ModelRef, Error>))
    ensures |r.0.log| > |w.log| && r.0.log[..|w.log| + 1] == w.log + [GetModel(name, project, None)]
  {
    var w1 := Logged(w, GetModel(name, project, None));
    if ModelRef(name, project) in w.models then (w1, Err(ModelAlreadyExists(name)))
    else if name !in defs then (w1, Err(TypeError(MissingDefinition)))
    else
      var def := defs[name];
      var w2 := ViewStep(w1, def, project);
      var trained := ModelRef(def.name, project);
      (Logged(w2, TrainModel(def.name, def.targetColumn, project, TrainingPayload(project, def.trainingOptions)))
        .(models := w2.models + {trained}),
       Ok(trained))
  }

  /** `create` refuses a name the project already has: it only looks the model up. */
  lemma CreateRefusesExisting(w: World, defs: map<string, ModelDef>, project: string, name: string)
    requires ModelRef(name, project) in w.models
    ensures CreateSpec(w, defs, project, name).1 == Err(ModelAlreadyExists(name))
    ensures CreateSpec(w, defs, project, name).0 == Logged(w, GetModel(name, project, None))
  {
  }

  /** A successful `create` trains the definition's model under the current project, sending the
      project as the integration unless the definition names one, and keeps every other model. */
  lemma CreateTrainsDefinition(w: World, defs: map<string, ModelDef>, project: string, name: string)
    requires ModelRef(name, project) !in w.models && name in defs
    ensures var (w', r) := CreateSpec(w, defs, project, name);
      && r == Ok(ModelRef(defs[name].name, project))
      && w'.models == w.models + {ModelRef(defs[name].name, project)}
      && |w'.log| > |w.log| && w'.log[..|w.log|] == w.log
      && w'.log[|w'.log| - 1] == TrainModel(defs[name].name, defs[name].targetColumn, project,
                                            TrainingPayload(project, defs[name].trainingOptions))
      && w'.log[|w'.log| - 1].options.integration == Some(defs[name].trainingOptions.integration.GetOr(project))
  {
    var w1 := Logged(w, GetModel(name, project, None));
    var w2 := ViewStep(w1, defs[name], project);
    assert |w2.log| >= |w1.log| && w2.log[..|w.log|] == w.log;
  }

  /** The view is created exactly when the definition has one and no view of the project matches
      its name; it is then appended to the project's views. */
  lemma CreateMakesMissingView(w: World, defs: map<string, ModelDef>, project: string, name: string)
    requires ModelRef(name, project) !in w.models && name in defs && defs[name].view.Some?
    ensures var view := defs[name].view.value;
      var views' := ViewsOf(CreateSpec(w, defs, project, name).0, project);
      && (ViewExists(ViewsOf(w, project), view.name) ==> views' == ViewsOf(w, project))
      && (!ViewExists(ViewsOf(w, project), view.name) ==> views' == ViewsOf(w, project) + [view.name.GetOr(defs[name].name)])
  {
  }

  /** As written, a view without a name never matches an existing view, so it is created (under
      the model's name) on every `create`, even when a view of that name exists. */
  lemma UnnamedViewAlwaysCreated(w: World, defs: map<string, ModelDef>, project: string, name: string)
    requires ModelRef(name, project) !in w.models && name in defs
    requires defs[name].view.Some? && defs[name].view.value.name.None?
    ensures CreateView(defs[name].name, project, defs[name].view.value.select) in CreateSpec(w, defs, project, name).0.log
  {
    var w1 := Logged(w, GetModel(name, project, None));
    var w2 := ViewStep(w1, defs[name], project);
    assert w2.log[|w2.log| - 1] == CreateView(defs[name].name, project, defs[name].view.value.select);
    var w3 := CreateSpec(w, defs, project, name).0;
    assert w3.log[|w2.log| - 1] == w2.log[|w2.log| - 1];
  }

  /** Creating the same model twice fails the second time, when the definition is stored under
      its own name. */
  lemma CreateTwiceRefused(w: World, defs: map<string, ModelDef>, project: string, name: string)
    requires name in defs && defs[name].name == name
    ensures CreateSpec(CreateSpec(w, defs, project, name).0, defs, project, name).1 == Err(ModelAlreadyExists(name))
  {
    if ModelRef(name, project) !in w.models {
      CreateTrainsDefinition(w, defs, project, name);
    }
  }

  /** `modelDef.predictOptions.join || query.join`: a batch query when either join is non-empty. */
  predicate UsesBatch(def: ModelDef, q: PredictQuery)
    ensures GetPredictOptions(def, q).Ok? && GetPredictOptions(def, q).value.join != "" ==> UsesBatch(def, q)
    ensures q.join.None? && def.predictOptions.join == "" ==> !UsesBatch(def, q)
  {
    def.predictOptions.join != "" || (q.join.Some? && q.join.value != "")
  }

  /** `predict(id, query)`: the world after it and the query request whose answer it returns. */
  function PredictSpec(w: World, defs: map<string, ModelDef>, project: string, id: string, q: PredictQuery)
    : (World, Result<Call, Error>)
  {
    var w1 := Logged(w, GetModel(id, project, q.version));
    if id !in defs then (w1, Err(TypeError(MissingDefinition)))
    else if ModelRef(id, project) !in w.models then (w1, Err(TypeError(MissingRemoteModel)))
    else
      match GetPredictOptions(defs[id], q)
      case Err(e) => (w1, Err(e))
      case Ok(options) =>
        var c := if UsesBatch(defs[id], q) then BatchQuery(ModelRef(id, project), options)
                 else Query(ModelRef(id, project), options);
        (Logged(w1, c), Ok(c))
  }

  /** A prediction sends the options built from the definition and the request, as a batch query
      exactly when a join is set; a failed one sends nothing after the lookup. */
  lemma PredictSendsOptions(w: World, defs: map<string, ModelDef>, project: string, id: string, q: PredictQuery)
    ensures var (w', r) := PredictSpec(w, defs, project, id, q);
      && w'.models == w.models && w'.views == w.views
      && (r.Ok? <==> id in defs && ModelRef(id, project) in w.models && GetPredictOptions(defs[id], q).Ok?)
      && (r.Ok? ==> r.value.predict == GetPredictOptions(defs[id], q).value
                    && r.value.model == ModelRef(id, project)
                    && (r.value.BatchQuery? <==> UsesBatch(defs[id], q))
                    && (r.value.Query? <==> !UsesBatch(defs[id], q))
                    && w'.log == w.log + [GetModel(id, project, q.version), r.value])
      && (r.Err? ==> w'.log == w.log + [GetModel(id, project, q.version)])
  {
  }

  /** A definition that is missing is reported before a model that is missing, which is reported
      before a missing parameter record. */
  lemma PredictErrorOrder(w: World, defs: map<string, ModelDef>, project: string, id: string, q: PredictQuery)
    ensures id !in defs ==> PredictSpec(w, defs, project, id, q).1 == Err(TypeError(MissingDefinition))
    ensures id in defs && ModelRef(id, project) !in w.models
      ==> PredictSpec(w, defs, project, id, q).1 == Err(TypeError(MissingRemoteModel))
    ensures id in defs && ModelRef(id, project) in w.models && GetPredictOptions(defs[id], q).Err?
      ==> PredictSpec(w, defs, project, id, q).1 == Err(TypeError(MissingParams))
  {
  }

  /** `finetune(id, request)`: the world after it and the adjust request whose answer it returns. */
  function FinetuneSpec(w: World, defs: map<string, ModelDef>, project: string, id: string, request: Option<FinetuneRequest>)
    : (World, Result<Call, Error>)
  {
    var w1 := Logged(w, GetModel(id, project, None));
    if ModelRef(id, project) !in w.models then (w1, Err(TypeError(MissingRemoteModel)))
    else if id !in defs then (w1, Err(TypeError(MissingDefinition)))
    else
      var c := Adjust(ModelRef(id, project), defs[id].integration.GetOr(project), defs[id], request);
      (Logged(w1, c), Ok(c))
  }

  /** An adjustment goes to the definition's integration, or to the project when it names none,
      and carries the caller's request unchanged. */
  lemma FinetuneIntegration(w: World, defs: map<string, ModelDef>, project: string, id: string, request: Option<FinetuneRequest>)
    ensures var (w', r) := FinetuneSpec(w, defs, project, id, request);
      && (r.Ok? <==> ModelRef(id, project) in w.models && id in defs)
      && (r.Ok? ==> r.value == Adjust(ModelRef(id, project), defs[id].integration.GetOr(project), defs[id], request)
                    && w'.log == w.log + [GetModel(id, project, None), r.value])
      && w'.models == w.models
  {
  }

  /** `retrain(id, request)`: the world after it and the retrain request whose answer it returns. */
  function RetrainSpec(w: World, defs: map<string, ModelDef>, project: string, id: string, request: Option<Json>)
    : (World, Result<Call, Error>)
  {
    if id !in defs then (w, Err(TypeError(MissingDefinition)))
    else
      var c := RetrainModel(id, defs[id].targetColumn, project, request);
      (Logged(w, c), Ok(c))
  }

  /** A retrain of a defined model is one request naming its target column; an undefined one
      sends nothing. */
  lemma RetrainSendsTarget(w: World, defs: map<string, ModelDef>, project: string, id: string, request: Option<Json>)
    ensures var (w', r) := RetrainSpec(w, defs, project, id, request);
      && (id !in defs ==> w' == w && r.Err?)
      && (id in defs ==> r == Ok(RetrainModel(id, defs[id].targetColumn, project, request)) && w'.log == w.log + [r.value])
  {
  }

  /** `remove(name)`: the world after it and the delete request whose answer it returns. */
  function RemoveSpec(w: World, project: string, name: string): (World, Call) {
    var c := DeleteModel(name, project);
    (Logged(w, c).(models := w.models - {ModelRef(name, project)}), c)
  }

  /** After `remove`, `create` of the same name is no longer refused as existing. */
  lemma RemoveThenCreate(w: World, defs: map<string, ModelDef>, project: string, name: string)
    ensures CreateSpec(RemoveSpec(w, project, name).0, defs, project, name).1 != Err(ModelAlreadyExists(name))
  {
  }

  /** The remote client: its answers come from what it holds, and every request is recorded. */
  class Remote {
    var models: set<ModelRef>
    var views: map<string, seq<string>>
    var log: seq<Call>

    function State(): World
      reads this
    {
      World(models, views, log)
    }

    constructor (models: set<ModelRef>, views: map<string, seq<string>>)
      ensures State() == World(models, views, [])
    {
      this.models, this.views, log := models, views, [];
    }

    /** `Models.getModel(name, project, version)`: whether the model exists. */
    method GetModel(name: string, project: string, version: Option<int>) returns (found: bool)
      modifies this`log
      ensures found == (ModelRef(name, project) in models)
      ensures State() == Logged(old(State()), Call.GetModel(name, project, version))
    {
      found := ModelRef(name, project) in models;
      log := log + [Call.GetModel(name, project, version)];
    }

    /** `Views.getAllViews(project)`: the names of the project's views. */
    method GetAllViews(project: string) returns (names: seq<string>)
      modifies this`log
      ensures names == ViewsOf(old(State()), project)
      ensures State() == Logged(old(State()), Call.GetAllViews(project))
    {
      names := ViewsOf(State(), project);
      log := log + [Call.GetAllViews(project)];
    }

    /** `Views.createView(name, project, select)` */
    method CreateView(name: string, project: string, select: string)
      modifies this`log, this`views
      ensures State() == Logged(old(State()), Call.CreateView(name, project, select))
                           .(views := old(views)[project := ViewsOf(old(State()), project) + [name]])
    {
      views := views[project := ViewsOf(State(), project) + [name]];
      log := log + [Call.CreateView(name, project, select)];
    }

    /** `Models.trainModel(name, targetColumn, project, options)` */
    method TrainModel(name: string, targetColumn: string, project: string, options: TrainingOptions)
      modifies this`log, this`models
      ensures State() == Logged(old(State()), Call.TrainModel(name, targetColumn, project, options))
                           .(models := old(models) + {ModelRef(name, project)})
    {
      models := models + {ModelRef(name, project)};
      log := log + [Call.TrainModel(name, targetColumn, project, options)];
    }

    /** `Models.deleteModel(name, project)` */
    method DeleteModel(name: string, project: string)
      modifies this`log, this`models
      ensures State() == Logged(old(State()), Call.DeleteModel(name, project))
                           .(models := old(models) - {ModelRef(name, project)})
    {
      models := models - {ModelRef(name, project)};
      log := log + [Call.DeleteModel(name, project)];
    }

    /** A request that reads or adjusts a model without changing what the client holds:
        `query`, `batchQuery`, `adjust` and `retrainModel`. */
    method Send(c: Call)
      requires c.Query? || c.BatchQuery? || c.Adjust? || c.RetrainModel?
      modifies this`log
      ensures State() == Logged(old(State()), c)
    {
      log := log + [c];
    }
  }

  /** `MindsdbService`: the project it works in, the model definitions and the client. */
  class MindsdbService {
    var project: string
    const models: map<string, ModelDef>
    const client: Remote

    /** The project is `NODE_ENV` when set, "mindsdb" otherwise. */
    constructor (nodeEnv: Option<string>, models: map<string, ModelDef>, client: Remote)
      ensures project == nodeEnv.GetOr("mindsdb")
      ensures this.models == models && this.client == client
    {
      project := nodeEnv.GetOr("mindsdb");
      this.models := models;
      this.client := client;
    }

    /** The `Project` setter: every later request goes to `p`. */
    method SetProject(p: string)
      modifies this`project
      ensures project == p
    {
      project := p;
    }

    method Create(name: string) returns (r: Result<ModelRef, Error>)
      modifies client
      ensures (client.State(), r) == CreateSpec(old(client.State()), models, project, name)
    {
      var taken := client.GetModel(name, project, None);
      if taken {
        return Err(ModelAlreadyExists(name));
      }
      if name !in models {
        return Err(TypeError(MissingDefinition));
      }
      var def := models[name];
      if def.view.Some? {
        var names := client.GetAllViews(project);
        if !ViewExists(names, def.view.value.name) {
          client.CreateView(def.view.value.name.GetOr(def.name), project, def.view.value.select);
        }
      }
      client.TrainModel(def.name, def.targetColumn, project, TrainingPayload(project, def.trainingOptions));
      r := Ok(ModelRef(def.name, project));
    }

    /** `predict(id, query)`: also deletes, in place, every property of the request that holds
        `undefined`, which leaves what the options read unchanged. */
    method Predict(id: string, query: PredictMindsdbDto) returns (r: Result<Call, Error>)
      modifies client, query
      ensures query.Props() == old(query.Props()).WithoutUndefined()
      ensures (client.State(), r) == PredictSpec(old(client.State()), models, project, id, old(query.Props()).Query())
    {
      var found := client.GetModel(id, project, query.version.AsOption());
      query.DeleteUndefined();
      VisitingAllKeysStrips(old(query.Props()));
      var q := query.Props().Query();
      if id !in models {
        return Err(TypeError(MissingDefinition));
      }
      var def := models[id];
      var batch := UsesBatch(def, q);
      if !found {
        return Err(TypeError(MissingRemoteModel));
      }
      var options := GetPredictOptions(def, q);
      if options.Err? {
        return Err(options.error);
      }
      var c := if batch then BatchQuery(ModelRef(id, project), options.value) else Query(ModelRef(id, project), options.value);
      client.Send(c);
      r := Ok(c);
    }

    method Finetune(id: string, request: Option<FinetuneRequest>) returns (r: Result<Call, Error>)
      modifies client
      ensures (client.State(), r) == FinetuneSpec(old(client.State()), models, project, id, request)
    {
      var found := client.GetModel(id, project, None);
      if !found {
        return Err(TypeError(MissingRemoteModel));
      }
      if id !in models {
        return Err(TypeError(MissingDefinition));
      }
      var c := Adjust(ModelRef(id, project), models[id].integration.GetOr(project), models[id], request);
      client.Send(c);
      r := Ok(c);
    }

    method Retrain(id: string, request: Option<Json>) returns (r: Result<Call, Error>)
      modifies client
      ensures (client.State(), r) == RetrainSpec(old(client.State()), models, project, id, request)
    {
      if id !in models {
        return Err(TypeError(MissingDefinition));
      }
      var c := RetrainModel(id, models[id].targetColumn, project, request);
      client.Send(c);
      r := Ok(c);
    }

    method Remove(name: string) returns (c: Call)
      modifies client
      ensures (client.State(), c) == RemoveSpec(old(client.State()), project, name)
    {
      client.DeleteModel(name, project);
      c := DeleteModel(name, project);
    }
  }
}
