/** The settings a model call runs with (`ModelDetails`) and how they are
    assembled from the user's model object: a fully resolved object is taken
    as it is, anything else is completed from the model table and the
    secret store, user value first, then the stored arguments, then the
    defaults. The model table, the secret store and the JSON text parser are
    parameters. */
module ModelDetailsLoading {
  import opened Wrappers
  import opened Json
  import opened Text
  import opened Providers

  datatype ModelDetails = ModelDetails(
    providerName: string,
    modelName: string,
    model: string,
    secret: map<string, string>,
    tupleFormat: string,
    batchSize: int,
    modelParameters: Value)

  /** A model table row: model, provider and parsed `model_args`. */
  datatype StoredModel = StoredModel(model: string, provider: string, args: Value)

  /** `GetQueriedModel`: the user table first, then the default table;
      `Err("Model not found")` when neither has the name. */
  type ModelTable = string -> Result<StoredModel>

  /** `SecretManager::GetSecret`. */
  type SecretStore = string -> Result<map<string, string>>

  /** `nlohmann::json::parse`. */
  type TextParser = string -> Result<Value>

  const MODEL_NAME_ERROR: string := "`model_name` is required in model settings"
  const DEFAULT_TUPLE_FORMAT: string := "XML"
  const DEFAULT_BATCH_SIZE: int := 2048

  /** The five keys whose presence makes the user's object final. */
  predicate Resolved(j: Value) {
    j.Obj? && "model" in j.fields && "provider" in j.fields && "secret" in j.fields
      && "tuple_format" in j.fields && "batch_size" in j.fields
  }

  /** The `model_name` member, empty when absent. */
  function ModelName(j: Value): (r: Result<string>)
    ensures Field(j, "model_name").None? ==> r == Ok("")
    ensures Field(j, "model_name").Some? ==> r == AsString(j.fields["model_name"])
  {
    match Field(j, "model_name")
    case None => Ok("")
    case Some(v) => AsString(v)
  }

  /** `model_parameters` as the user gives it: text is parsed, any other
      value is taken as it is. */
  function UserParameters(v: Value, parse: TextParser): (r: Result<Value>)
    ensures !v.Str? ==> r == Ok(v)
    ensures v.Str? ==> r == parse(v.s)
  {
    if v.Str? then parse(v.s) else Ok(v)
  }

  /** The secret looked up when the user gives none: `__default_` and the
      provider name, with `_llm` after it for Azure. */
  function DefaultSecretName(provider: string): (name: string)
    ensures |name| >= |"__default_"| && name[..|"__default_"|] == "__default_"
  {
    "__default_" + provider + (if provider == "azure" then "_llm" else "")
  }

  /** The secret name, `secret_name` overriding the default. */
  function SecretName(j: Value, provider: string): (r: Result<string>)
    ensures Field(j, "secret_name").None? ==> r == Ok(DefaultSecretName(provider))
    ensures Field(j, "secret_name").Some? ==> r == AsString(j.fields["secret_name"])
  {
    match Field(j, "secret_name")
    case None => Ok(DefaultSecretName(provider))
    case Some(v) => AsString(v)
  }

  /** One setting read from the user object, else from the stored
      arguments, else the default. */
  function Layered<T>(user: Option<Value>, stored: Option<Value>, read: Value -> Result<T>, default: T): (r: Result<T>)
    ensures user.Some? ==> r == read(user.value)
    ensures user.None? && stored.Some? ==> r == read(stored.value)
    ensures user.None? && stored.None? ==> r == Ok(default)
  {
    if user.Some? then read(user.value)
    else if stored.Some? then read(stored.value)
    else Ok(default)
  }

  /** `Model::LoadModelDetails`. */
  function LoadModelDetails(j: Value, table: ModelTable, secrets: SecretStore, parse: TextParser): (r: Result<ModelDetails>)
    ensures r.Ok? ==> ModelName(j) == Ok(r.value.modelName) && r.value.modelName != ""
    ensures ModelName(j) == Ok("") ==> r == Err(MODEL_NAME_ERROR)
    ensures r.Ok? ==> INT32_MIN <= r.value.batchSize <= INT32_MAX
  {
    var name :- ModelName(j);
    if name == "" then Err(MODEL_NAME_ERROR)
    else if Resolved(j) then LoadResolved(j, name, parse)
    else LoadStored(j, name, table, secrets, parse)
  }

  /** The resolved path: every setting from the user object. */
  function LoadResolved(j: Value, name: string, parse: TextParser): (r: Result<ModelDetails>)
    requires Resolved(j)
    ensures r.Ok? ==> r.value.modelName == name && INT32_MIN <= r.value.batchSize <= INT32_MAX
  {
    var model :- AsString(j.fields["model"]);
    var provider :- AsString(j.fields["provider"]);
    var secret :- AsStringMap(j.fields["secret"]);
    var format :- AsString(j.fields["tuple_format"]);
    var batch :- AsInt(j.fields["batch_size"]);
    var params :- if "model_parameters" in j.fields then UserParameters(j.fields["model_parameters"], parse) else Ok(Obj(map[]));
    Ok(ModelDetails(provider, name, model, secret, format, batch, params))
  }

  /** The other path: the model row is read first, whatever the user
      gives. */
  function LoadStored(j: Value, name: string, table: ModelTable, secrets: SecretStore, parse: TextParser): (r: Result<ModelDetails>)
    ensures r.Ok? ==> r.value.modelName == name && INT32_MIN <= r.value.batchSize <= INT32_MAX
  {
    var row :- table(name);
    var model :- Layered(Field(j, "model"), None, AsString, row.model);
    var provider :- Layered(Field(j, "provider"), None, AsString, row.provider);
    var secret :- match Field(j, "secret")
      case Some(v) => AsStringMap(v)
      case None =>
        var secretName :- SecretName(j, provider);
        secrets(secretName);
    var params :- match Field(j, "model_parameters")
      case Some(v) => UserParameters(v, parse)
      case None => Ok(Field(row.args, "model_parameters").GetOr(Obj(map[])));
    var format :- Layered(Field(j, "tuple_format"), Field(row.args, "tuple_format"), AsString, DEFAULT_TUPLE_FORMAT);
    var batch :- Layered(Field(j, "batch_size"), Field(row.args, "batch_size"), AsInt, DEFAULT_BATCH_SIZE);
    Ok(ModelDetails(provider, name, model, secret, format, batch, params))
  }

  // ------------------------------------------------------------ properties

  /** A resolved object is read without consulting the model table or the
      secret store. */
  lemma ResolvedIgnoresStores(j: Value, t1: ModelTable, s1: SecretStore, t2: ModelTable, s2: SecretStore, parse: TextParser)
    requires Resolved(j)
    ensures LoadModelDetails(j, t1, s1, parse) == LoadModelDetails(j, t2, s2, parse)
  {
  }

  /** On the other path a missing model row fails the load, whatever the
      user object holds. */
  lemma MissingRowFails(j: Value, table: ModelTable, secrets: SecretStore, parse: TextParser)
    requires !Resolved(j) && ModelName(j).Ok? && ModelName(j).value != ""
    requires table(ModelName(j).value).Err?
    ensures LoadModelDetails(j, table, secrets, parse) == Err(table(ModelName(j).value).error)
  {
  }

  /** The precedence on the unresolved path: for each of the tuple format,
      the batch size and the parameters, a user member wins over a stored
      argument, which wins over the default. */
  lemma StoredPrecedence(j: Value, table: ModelTable, secrets: SecretStore, parse: TextParser)
    requires !Resolved(j)
    requires LoadModelDetails(j, table, secrets, parse).Ok?
    ensures var d := LoadModelDetails(j, table, secrets, parse).value;
      var args := table(d.modelName).value.args;
      table(d.modelName).Ok?
      && (Field(j, "tuple_format").Some? ==> Ok(d.tupleFormat) == AsString(j.fields["tuple_format"]))
      && (Field(j, "tuple_format").None? && Field(args, "tuple_format").Some? ==> Ok(d.tupleFormat) == AsString(args.fields["tuple_format"]))
      && (Field(j, "tuple_format").None? && Field(args, "tuple_format").None? ==> d.tupleFormat == DEFAULT_TUPLE_FORMAT)
      && (Field(j, "batch_size").Some? ==> Ok(d.batchSize) == AsInt(j.fields["batch_size"]))
      && (Field(j, "batch_size").None? && Field(args, "batch_size").Some? ==> Ok(d.batchSize) == AsInt(args.fields["batch_size"]))
      && (Field(j, "batch_size").None? && Field(args, "batch_size").None? ==> d.batchSize == DEFAULT_BATCH_SIZE)
      && (Field(j, "model_parameters").Some? ==> Ok(d.modelParameters) == UserParameters(j.fields["model_parameters"], parse))
      && (Field(j, "model_parameters").None? && Field(args, "model_parameters").Some? ==> d.modelParameters == args.fields["model_parameters"])
      && (Field(j, "model_parameters").None? && Field(args, "model_parameters").None? ==> d.modelParameters == Obj(map[]))
  {
  }

  /** The model, the provider and the secret on the unresolved path: the
      user's values over the stored row, and without a user secret the one
      stored under `secret_name` or the provider's default name. */
  lemma StoredIdentity(j: Value, table: ModelTable, secrets: SecretStore, parse: TextParser)
    requires !Resolved(j)
    requires LoadModelDetails(j, table, secrets, parse).Ok?
    ensures var d := LoadModelDetails(j, table, secrets, parse).value;
      var row := table(d.modelName).value;
      table(d.modelName).Ok?
      && (Field(j, "model").Some? ==> Ok(d.model) == AsString(j.fields["model"]))
      && (Field(j, "model").None? ==> d.model == row.model)
      && (Field(j, "provider").Some? ==> Ok(d.providerName) == AsString(j.fields["provider"]))
      && (Field(j, "provider").None? ==> d.providerName == row.provider)
      && (Field(j, "secret").Some? ==> Ok(d.secret) == AsStringMap(j.fields["secret"]))
      && (Field(j, "secret").None? ==>
            SecretName(j, d.providerName).Ok? && secrets(SecretName(j, d.providerName).value) == Ok(d.secret))
  {
  }

  /** What follows the `__default_` prefix of a default secret name. */
  lemma DefaultSecretNameSuffix(provider: string)
    ensures DefaultSecretName(provider)[|"__default_"|..] == provider + (if provider == "azure" then "_llm" else "")
  {
    var p := "__default_";
    var suffix := provider + (if provider == "azure" then "_llm" else "");
    assert DefaultSecretName(provider) == p + suffix;
  }

  /** Default secret names are distinct for distinct providers, except that
      a provider literally named `azure_llm` shares Azure's. */
  lemma DefaultSecretNameCollision(a: string, b: string)
    requires a != b && DefaultSecretName(a) == DefaultSecretName(b)
    ensures {a, b} == {"azure", "azure_llm"}
  {
    DefaultSecretNameSuffix(a);
    DefaultSecretNameSuffix(b);
    assert "azure" + "_llm" == "azure_llm";
    assert a + "" == a && b + "" == b;
    if a == "azure" {
      assert b == "azure_llm";
    } else {
      assert b == "azure" && a == "azure_llm";
    }
  }

  /** `Model::GetModelDetailsAsJson`: every setting under its key, with
      `model_parameters` only when it is not empty. */
  function DetailsToJson(d: ModelDetails): (j: Value)
    ensures Resolved(j)
    ensures "model_parameters" in j.fields <==> !IsEmpty(d.modelParameters)
  {
    var base := map[
      "model_name" := Str(d.modelName),
      "model" := Str(d.model),
      "provider" := Str(d.providerName),
      "tuple_format" := Str(d.tupleFormat),
      "batch_size" := Int(d.batchSize),
      "secret" := StringObject(d.secret)];
    Obj(if IsEmpty(d.modelParameters) then base else base["model_parameters" := d.modelParameters])
  }

  /** Details that survive being written out and read back: a model name,
      a 32-bit batch size, and parameters that are neither text (which
      would be parsed) nor an empty value other than `{}` (which would be
      dropped and read back as `{}`). */
  predicate Reloadable(d: ModelDetails) {
    d.modelName != "" && INT32_MIN <= d.batchSize <= INT32_MAX && !d.modelParameters.Str?
      && (IsEmpty(d.modelParameters) ==> d.modelParameters == Obj(map[]))
  }

  /** Loading the JSON form of reloadable details gives them back, without
      any lookup. */
  lemma LoadDetailsToJson(d: ModelDetails, table: ModelTable, secrets: SecretStore, parse: TextParser)
    requires Reloadable(d)
    ensures LoadModelDetails(DetailsToJson(d), table, secrets, parse) == Ok(d)
  {
    var j := DetailsToJson(d);
    StringObjectRoundTrip(d.secret);
    assert ModelName(j) == Ok(d.modelName);
    assert LoadResolved(j, d.modelName, parse) == Ok(d);
  }

  /** Empty parameters other than `{}` (null or `[]`) come back as `{}`. */
  lemma LoadDetailsToJsonEmpty(d: ModelDetails, table: ModelTable, secrets: SecretStore, parse: TextParser)
    requires d.modelName != "" && INT32_MIN <= d.batchSize <= INT32_MAX && IsEmpty(d.modelParameters)
    ensures LoadModelDetails(DetailsToJson(d), table, secrets, parse) == Ok(d.(modelParameters := Obj(map[])))
  {
    var j := DetailsToJson(d);
    StringObjectRoundTrip(d.secret);
    assert ModelName(j) == Ok(d.modelName);
    assert LoadResolved(j, d.modelName, parse) == Ok(d.(modelParameters := Obj(map[])));
  }

  // ------------------------------------------------------------ the model

  /** A constructed `Model`: its details and its provider. */
  datatype Model = Model(details: ModelDetails, provider: ProviderKind)

  /** The services a model is built against. */
  datatype Environment = Environment(table: ModelTable, secrets: SecretStore, parse: TextParser, mocks: Mocks)

  /** `Model(model_json)`: load the details, then construct the provider. */
  function NewModel(j: Value, env: Environment): (r: Result<Model>)
    ensures r.Ok? ==> LoadModelDetails(j, env.table, env.secrets, env.parse) == Ok(r.value.details)
    ensures r.Ok? ==> ConstructProvider(env.mocks, r.value.details.providerName) == Ok(r.value.provider)
    ensures LoadModelDetails(j, env.table, env.secrets, env.parse).Err? ==>
      r == Err(LoadModelDetails(j, env.table, env.secrets, env.parse).error)
  {
    var d :- LoadModelDetails(j, env.table, env.secrets, env.parse);
    var p :- ConstructProvider(env.mocks, d.providerName);
    Ok(Model(d, p))
  }

  /** `Model::ResolveModelDetailsToJson`: the JSON form of the constructed
      model's details, with the user's `secret_name` carried through. */
  function ResolveModelDetailsToJson(user: Value, env: Environment): (r: Result<Value>)
    ensures r.Ok? ==> NewModel(user, env).Ok? && Resolved(r.value)
    ensures r.Ok? ==> forall k :: k in r.value.fields && k != "secret_name" ==>
      k in DetailsToJson(NewModel(user, env).value.details).fields
      && r.value.fields[k] == DetailsToJson(NewModel(user, env).value.details).fields[k]
    ensures r.Ok? ==> ("secret_name" in r.value.fields <==> Field(user, "secret_name").Some?)
    ensures r.Ok? && Field(user, "secret_name").Some? ==> r.value.fields["secret_name"] == user.fields["secret_name"]
    ensures NewModel(user, env).Err? ==> r.Err?
  {
    var m :- NewModel(user, env);
    var j := DetailsToJson(m.details);
    match Field(user, "secret_name")
    case Some(v) => Ok(Obj(j.fields["secret_name" := v]))
    case None => Ok(j)
  }

  /** Resolving is idempotent in effect: loading the resolved object gives
      the same details as loading the user's object, when those details are
      reloadable. */
  lemma ResolveThenLoad(user: Value, env: Environment)
    requires ResolveModelDetailsToJson(user, env).Ok?
    requires Reloadable(NewModel(user, env).value.details)
    ensures LoadModelDetails(ResolveModelDetailsToJson(user, env).value, env.table, env.secrets, env.parse)
            == Ok(NewModel(user, env).value.details)
  {
    var d := NewModel(user, env).value.details;
    match Field(user, "secret_name")
    case Some(v) => LoadDetailsToJsonNamed(d, v, env.table, env.secrets, env.parse);
    case None => LoadDetailsToJson(d, env.table, env.secrets, env.parse);
  }

  /** The same with a `secret_name` member added, which a resolved object
      does not read. */
  lemma LoadDetailsToJsonNamed(d: ModelDetails, v: Value, table: ModelTable, secrets: SecretStore, parse: TextParser)
    requires Reloadable(d)
    ensures LoadModelDetails(Obj(DetailsToJson(d).fields["secret_name" := v]), table, secrets, parse) == Ok(d)
  {
    var j := Obj(DetailsToJson(d).fields["secret_name" := v]);
    LoadDetailsToJson(d, table, secrets, parse);
    LoadReadsSettings(DetailsToJson(d), j, table, secrets, parse);
  }

  /** The settings keys a resolved object is read through. */
  predicate SameSettings(a: Value, b: Value) {
    Field(a, "model_name") == Field(b, "model_name") && Field(a, "model") == Field(b, "model")
      && Field(a, "provider") == Field(b, "provider") && Field(a, "secret") == Field(b, "secret")
      && Field(a, "tuple_format") == Field(b, "tuple_format") && Field(a, "batch_size") == Field(b, "batch_size")
      && Field(a, "model_parameters") == Field(b, "model_parameters")
  }

  /** Two resolved objects that agree on the settings keys load alike. */
  lemma LoadReadsSettings(a: Value, b: Value, table: ModelTable, secrets: SecretStore, parse: TextParser)
    requires Resolved(a) && Resolved(b) && SameSettings(a, b)
    ensures LoadModelDetails(a, table, secrets, parse) == LoadModelDetails(b, table, secrets, parse)
  {
  }

  // ------------------------------------------------------------- bind data

  /** `LlmFunctionBindData`: the model object and the prompt a bound call
      keeps. */
  datatype BindData = BindData(modelJson: Value, prompt: string)

  /** `Copy`. */
  function Copy(b: BindData): (c: BindData)
    ensures c.modelJson == b.modelJson && c.prompt == b.prompt
  {
    BindData(b.modelJson, b.prompt)
  }

  /** `Equals`: the prompt and the model object. */
  predicate Equals(a: BindData, b: BindData) {
    a.prompt == b.prompt && a.modelJson == b.modelJson
  }

  /** `Equals` is exactly equality of bind data, and a copy equals its
      original. */
  lemma EqualsIsEquality(a: BindData, b: BindData)
    ensures Equals(a, b) <==> a == b
    ensures Equals(Copy(a), a)
  {
  }

  /** `CreateModel`: a fresh model from the stored object on every call, so
      two calls with the same services agree. */
  function CreateModel(b: BindData, env: Environment): (r: Result<Model>) {
    NewModel(b.modelJson, env)
  }

  /** Bind data that are `Equals` create the same model. */
  lemma EqualBindDataSameModel(a: BindData, b: BindData, env: Environment)
    requires Equals(a, b)
    ensures CreateModel(a, env) == CreateModel(b, env)
    ensures CreateModel(Copy(a), env) == CreateModel(a, env)
  {
  }
}
