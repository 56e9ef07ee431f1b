/**
 * The endpoint configuration of the reporter: a `Config` object holding the
 * loaded configuration and secrets, the name of the active LLM endpoint and that
 * endpoint's settings (with the API key resolved), which `SwitchEndpoint`
 * overwrites.
 *
 * The YAML files are inputs, already parsed: the configuration as a
 * `ConfigFile`, the secrets as a mapping, and the process environment as a map
 * from variable names to values.
 */
module ConfigLoader {
  import opened Wrappers

  /** A YAML value as far as this code looks at it; numbers, booleans and lists are `YOther`, known by their truthiness. */
  datatype Yaml = YNull | YStr(s: string) | YMap(entries: map<string, Yaml>) | YOther(truthy: bool)

  /** Python truthiness of a YAML value. */
  predicate Truthy(v: Yaml) {
    match v
    case YNull => false
    case YStr(s) => s != ""
    case YMap(m) => m != map[]
    case YOther(t) => t
  }

  type Mapping = map<string, Yaml>

  /** `d.get(k)`. */
  function Get(d: Mapping, k: string): Yaml {
    if k in d then d[k] else YNull
  }

  /** `d.get(k, default)`. */
  function GetOr(d: Mapping, k: string, default: Yaml): Yaml {
    if k in d then d[k] else default
  }

  /**
   * The parts of `configuration.yaml` the configuration object reads: the
   * `active_endpoint` string (`None` when absent or null), the `endpoints`
   * mapping and the `app` mapping (empty when absent).
   */
  datatype ConfigFile = ConfigFile(activeEndpoint: Option<string>, endpoints: map<string, Mapping>, app: Mapping)

  /** The `ConfigurationError`s raised by the lookups. */
  datatype ConfigError =
    | NoActiveEndpoint
    | EndpointNotFound(name: string, available: set<string>)
    | ApiKeyNotFound(keyEnv: Yaml)

  datatype Outcome<+T> = Ok(value: T) | Err(error: ConfigError)

  // ---------------------------------------------------------------------------
  // _get_endpoint_config
  // ---------------------------------------------------------------------------

  /** `secrets.get(k) or os.getenv(k)`: a truthy secret wins over the environment. */
  function ApiKeyOf(secrets: Mapping, env: map<string, string>, keyEnv: Yaml): (r: Yaml)
    ensures keyEnv.YStr? && Truthy(Get(secrets, keyEnv.s)) ==> r == secrets[keyEnv.s]
    ensures keyEnv.YStr? && !Truthy(Get(secrets, keyEnv.s)) && keyEnv.s in env ==> r == YStr(env[keyEnv.s])
    ensures Truthy(r) ==> keyEnv.YStr?
  {
    if !keyEnv.YStr? then YNull
    else if Truthy(Get(secrets, keyEnv.s)) then secrets[keyEnv.s]
    else if keyEnv.s in env then YStr(env[keyEnv.s])
    else YNull
  }

  /** `_get_endpoint_config`: a copy of the endpoint's settings, with `api_key` set when `api_key_env` names one. */
  function EndpointConfig(file: ConfigFile, secrets: Mapping, env: map<string, string>, name: string): (r: Outcome<Mapping>)
    ensures name !in file.endpoints <==> r == Err(EndpointNotFound(name, file.endpoints.Keys))
    ensures r.Err? ==> r.error.EndpointNotFound? || r.error.ApiKeyNotFound?
    ensures r.Ok? ==> name in file.endpoints
                      && (forall k :: k != "api_key" ==> (k in r.value <==> k in file.endpoints[name]))
                      && (forall k :: k in r.value && k != "api_key" ==> r.value[k] == file.endpoints[name][k])
  {
    if name !in file.endpoints then Err(EndpointNotFound(name, file.endpoints.Keys))
    else
      var endpoint := file.endpoints[name];
      var keyEnv := Get(endpoint, "api_key_env");
      if !Truthy(keyEnv) then Ok(endpoint)
      else
        var apiKey := ApiKeyOf(secrets, env, keyEnv);
        if !Truthy(apiKey) then Err(ApiKeyNotFound(keyEnv))
        else Ok(endpoint["api_key" := apiKey])
  }

  /**
   * With `api_key_env` set, the lookup succeeds exactly when the secret or the
   * environment variable is truthy, and the key stored is the secret when that
   * is truthy, else the environment value; without it the settings are returned
   * as they are.
   */
  lemma ApiKeyResolution(file: ConfigFile, secrets: Mapping, env: map<string, string>, name: string)
    requires name in file.endpoints
    ensures var endpoint := file.endpoints[name];
            var keyEnv := Get(endpoint, "api_key_env");
            var r := EndpointConfig(file, secrets, env, name);
            (!Truthy(keyEnv) ==> r == Ok(endpoint))
            && (Truthy(keyEnv) && keyEnv.YStr? ==>
                  (r.Ok? <==> Truthy(Get(secrets, keyEnv.s)) || (keyEnv.s in env && env[keyEnv.s] != ""))
                  && (r.Ok? ==> r.value["api_key"] == (if Truthy(Get(secrets, keyEnv.s)) then secrets[keyEnv.s] else YStr(env[keyEnv.s])))
                  && (r.Err? ==> r.error == ApiKeyNotFound(keyEnv)))
  {
  }

  /** The active endpoint at construction: its name must be given and non-empty, then it is looked up. */
  function InitialEndpoint(file: ConfigFile, secrets: Mapping, env: map<string, string>): (r: Outcome<(string, Mapping)>)
    ensures file.activeEndpoint.None? || file.activeEndpoint.value == "" <==> r == Err(NoActiveEndpoint)
    ensures r.Ok? ==> file.activeEndpoint == Some(r.value.0)
                      && EndpointConfig(file, secrets, env, r.value.0) == Ok(r.value.1)
    // A named endpoint succeeds exactly when its lookup does, and a failed lookup's error is passed on.
    ensures file.activeEndpoint.Some? && file.activeEndpoint.value != "" ==>
              var looked := EndpointConfig(file, secrets, env, file.activeEndpoint.value);
              (r.Ok? <==> looked.Ok?)
              && (r.Ok? ==> r.value == (file.activeEndpoint.value, looked.value))
              && (r.Err? ==> r.error == looked.error)
  {
    match file.activeEndpoint
    case None => Err(NoActiveEndpoint)
    case Some(name) =>
      if name == "" then Err(NoActiveEndpoint)
      else
        match EndpointConfig(file, secrets, env, name)
        case Err(e) => Err(e)
        case Ok(endpoint) => Ok((name, endpoint))
  }

  // ---------------------------------------------------------------------------
  // get_llm_client_params
  // ---------------------------------------------------------------------------

  /** The client parameters of an endpoint's settings. */
  function ClientParams(endpoint: Mapping): Mapping {
    var endpointType := Get(endpoint, "type");
    var params := map[
      "type" := endpointType,
      "model" := Get(endpoint, "model"),
      "parameters" := GetOr(endpoint, "parameters", YMap(map[]))];
    if endpointType == YStr("openai") then
      params["base_url" := Get(endpoint, "base_url")]["api_key" := GetOr(endpoint, "api_key", YStr("dummy"))]
    else if endpointType == YStr("nim_ssh") then
      params["ssh_host" := Get(endpoint, "ssh_host")]["base_url" := Get(endpoint, "base_url")]
    else params
  }

  const CommonParams: set<string> := {"type", "model", "parameters"}

  /**
   * The parameters always hold the type, the model and the model parameters
   * (`{}` by default); an `openai` endpoint adds its base URL and API key
   * (`"dummy"` by default), a `nim_ssh` endpoint its SSH host and base URL, and
   * any other type nothing.
   */
  lemma ClientParamsShape(endpoint: Mapping)
    ensures var p := ClientParams(endpoint);
            var t := Get(endpoint, "type");
            p.Keys == (if t == YStr("openai") then CommonParams + {"base_url", "api_key"}
                       else if t == YStr("nim_ssh") then CommonParams + {"ssh_host", "base_url"}
                       else CommonParams)
            && p["type"] == t && p["model"] == Get(endpoint, "model")
            && p["parameters"] == GetOr(endpoint, "parameters", YMap(map[]))
            && (t == YStr("openai") ==> p["base_url"] == Get(endpoint, "base_url")
                                        && p["api_key"] == GetOr(endpoint, "api_key", YStr("dummy")))
            && (t == YStr("nim_ssh") ==> p["ssh_host"] == Get(endpoint, "ssh_host")
                                         && p["base_url"] == Get(endpoint, "base_url"))
  {
  }

  /** An `openai` endpoint whose key is resolved from the secrets or the environment passes that key to the client. */
  lemma ClientGetsResolvedKey(file: ConfigFile, secrets: Mapping, env: map<string, string>, name: string)
    requires EndpointConfig(file, secrets, env, name).Ok?
    requires Truthy(Get(file.endpoints[name], "api_key_env"))
    requires Get(file.endpoints[name], "type") == YStr("openai")
    ensures var endpoint := EndpointConfig(file, secrets, env, name).value;
            ClientParams(endpoint)["api_key"]
            == ApiKeyOf(secrets, env, Get(file.endpoints[name], "api_key_env"))
  {
    var endpoint := EndpointConfig(file, secrets, env, name).value;
    assert Get(endpoint, "type") == YStr("openai");
  }

  // ---------------------------------------------------------------------------
  // The configuration object
  // ---------------------------------------------------------------------------

  class Config {
    const file: ConfigFile
    const secrets: Mapping
    const env: map<string, string>
    var activeEndpointName: string
    var activeEndpoint: Mapping

    /** The active endpoint is the lookup of the active name. */
    ghost predicate Consistent()
      reads this
    {
      EndpointConfig(file, secrets, env, activeEndpointName) == Ok(activeEndpoint)
    }

    constructor Make(file: ConfigFile, secrets: Mapping, env: map<string, string>, name: string, endpoint: Mapping)
      ensures this.file == file && this.secrets == secrets && this.env == env
      ensures activeEndpointName == name && activeEndpoint == endpoint
    {
      this.file := file;
      this.secrets := secrets;
      this.env := env;
      activeEndpointName := name;
      activeEndpoint := endpoint;
    }

    /** `Config(...)`: fails when there is no active endpoint, or when looking it up fails. */
    static method Load(file: ConfigFile, secrets: Mapping, env: map<string, string>) returns (r: Outcome<Config>)
      ensures r.Err? <==> InitialEndpoint(file, secrets, env).Err?
      ensures r.Err? ==> r.error == InitialEndpoint(file, secrets, env).error
      ensures r.Ok? ==> fresh(r.value) && r.value.file == file && r.value.secrets == secrets && r.value.env == env
                        && r.value.activeEndpointName == InitialEndpoint(file, secrets, env).value.0
                        && r.value.activeEndpoint == InitialEndpoint(file, secrets, env).value.1
                        && r.value.Consistent()
    {
      var name := file.activeEndpoint;
      if name.None? || name.value == "" {
        return Err(NoActiveEndpoint);
      }
      var endpoint := EndpointConfig(file, secrets, env, name.value);
      if endpoint.Err? {
        return Err(endpoint.error);
      }
      var c := new Config.Make(file, secrets, env, name.value, endpoint.value);
      return Ok(c);
    }

    /** `get_llm_client_params`. */
    function LlmClientParams(): Mapping
      reads this
    {
      ClientParams(activeEndpoint)
    }

    /** `get_app_setting`: the `app` entry for `key`, or `default` when there is none. */
    function GetAppSetting(key: string, default: Yaml): (r: Yaml)
      ensures key in file.app ==> r == file.app[key]
      ensures key !in file.app ==> r == default
    {
      GetOr(file.app, key, default)
    }

    /** `list_endpoints`, as the set of the configured endpoint names. */
    function ListEndpoints(): (r: set<string>)
      ensures forall name :: name in r <==> EndpointConfig(file, secrets, env, name) != Err(EndpointNotFound(name, r))
    {
      file.endpoints.Keys
    }

    /**
     * `switch_endpoint`: the name is overwritten first; the endpoint only when the
     * lookup succeeds. A failed switch therefore leaves the old endpoint under the
     * new name, and the object is no longer consistent.
     */
    method SwitchEndpoint(name: string) returns (err: Option<ConfigError>)
      modifies this
      ensures activeEndpointName == name
      ensures EndpointConfig(file, secrets, env, name).Ok? ==>
                err.None? && activeEndpoint == EndpointConfig(file, secrets, env, name).value && Consistent()
      ensures EndpointConfig(file, secrets, env, name).Err? ==>
                err == Some(EndpointConfig(file, secrets, env, name).error)
                && activeEndpoint == old(activeEndpoint) && !Consistent()
    {
      activeEndpointName := name;
      var endpoint := EndpointConfig(file, secrets, env, name);
      if endpoint.Err? {
        return Some(endpoint.error);
      }
      activeEndpoint := endpoint.value;
      return None;
    }
  }
}
