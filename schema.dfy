/** The model configuration record (`model.yaml` after validation), its field defaults,
    the model-name rule and the lookups the rest of the system uses. */
module Schema {
  import opened Values
  import opened Paths

  datatype ClientConfig = ClientConfig(moduleName: string, className: string)

  /** One handler declared by the model; its input and output schemas are free-form. */
  datatype HandlerConfig = HandlerConfig(name: string, input: map<string, Value>, output: map<string, Value>)

  datatype HealthConfig = HealthConfig(interval: int, timeout: int, maxFailures: int)

  datatype ResourceConfig = ResourceConfig(memoryLimit: Option<string>, cpuLimit: Option<int>, gpuIds: Option<seq<int>>)

  datatype ModelConfig = ModelConfig(
    name: string,
    version: string,
    python: string,
    client: ClientConfig,
    requirements: string,
    handlers: seq<HandlerConfig>,
    health: HealthConfig,
    resources: ResourceConfig,
    modelDir: Option<Path>)

  // Field defaults.
  const DefaultVersion := "1.0.0"
  const DefaultPython := ">=3.11"
  const DefaultRequirements := "requirements.txt"
  const DefaultHealth := HealthConfig(30, 5, 3)
  const DefaultResources := ResourceConfig(None, None, None)

  /** A configuration that sets only the two required fields. */
  function WithDefaults(name: string, client: ClientConfig): (c: ModelConfig)
    ensures c.name == name && c.client == client
    ensures c.version == "1.0.0" && c.python == ">=3.11" && c.requirements == "requirements.txt"
    ensures c.health.interval == 30 && c.health.timeout == 5 && c.health.maxFailures == 3
    ensures c.handlers == [] && c.modelDir.None?
    ensures c.resources.gpuIds.None? && c.resources.cpuLimit.None? && c.resources.memoryLimit.None?
  {
    ModelConfig(name, DefaultVersion, DefaultPython, client, DefaultRequirements, [],
                DefaultHealth, DefaultResources, None)
  }

  predicate IsAlnum(c: char) {
    'a' <= c <= 'z' || 'A' <= c <= 'Z' || '0' <= c <= '9'
  }

  predicate IsSeparator(c: char) {
    c == '_' || c == '-'
  }

  /** `v.replace("_", "").replace("-", "")`. */
  function StripSeparators(v: string): (r: string)
    ensures forall c :: c in r <==> c in v && !IsSeparator(c)
  {
    if v == [] then []
    else (if IsSeparator(v[0]) then [] else [v[0]]) + StripSeparators(v[1..])
  }

  /** `str.isalnum()`: non-empty and every character a letter or a digit. */
  predicate AllAlnum(s: string) {
    s != [] && forall i :: 0 <= i < |s| ==> IsAlnum(s[i])
  }

  /** The name validator: the name itself, or the `ValueError` message. */
  function ValidateName(v: string): Result<string, string> {
    if AllAlnum(StripSeparators(v)) then Ok(v)
    else Err("Model name must be alphanumeric with underscores or hyphens")
  }

  /** A name is accepted exactly when it is made of letters, digits, underscores and
      hyphens and has at least one letter or digit; an accepted name is kept as is. */
  lemma ValidateNameSpec(v: string)
    ensures ValidateName(v).Ok? <==>
              (forall i :: 0 <= i < |v| ==> IsAlnum(v[i]) || IsSeparator(v[i])) &&
              (exists i :: 0 <= i < |v| && IsAlnum(v[i]))
    ensures ValidateName(v).Ok? ==> ValidateName(v).value == v
  {
    var s := StripSeparators(v);
    if ValidateName(v).Ok? {
      forall i | 0 <= i < |v| ensures IsAlnum(v[i]) || IsSeparator(v[i]) {
        if !IsSeparator(v[i]) {
          assert v[i] in s;
        }
      }
      assert s[0] in s;
    } else if (forall i :: 0 <= i < |v| ==> IsAlnum(v[i]) || IsSeparator(v[i])) {
      forall k | 0 <= k < |s| ensures IsAlnum(s[k]) {
        assert s[k] in s;
      }
      forall i | 0 <= i < |v| ensures IsSeparator(v[i]) {
        assert v[i] in v;
      }
    }
  }

  /** `get_handler_names`: the declared handler names, in declaration order. */
  function HandlerNames(handlers: seq<HandlerConfig>): (names: seq<string>)
    ensures |names| == |handlers|
    ensures forall i :: 0 <= i < |handlers| ==> names[i] == handlers[i].name
  {
    if handlers == [] then [] else [handlers[0].name] + HandlerNames(handlers[1..])
  }

  /** `get_handler`: the first handler declared under `name`, if any. */
  function GetHandler(handlers: seq<HandlerConfig>, name: string): (r: Option<HandlerConfig>)
    ensures r.None? <==> name !in HandlerNames(handlers)
    ensures r.Some? ==> exists i :: 0 <= i < |handlers| && handlers[i] == r.value && r.value.name == name &&
                          forall j :: 0 <= j < i ==> handlers[j].name != name
  {
    if handlers == [] then None
    else if handlers[0].name == name then Some(handlers[0])
    else
      var r := GetHandler(handlers[1..], name);
      assert r.Some? ==> exists i :: 1 <= i < |handlers| && handlers[i] == r.value &&
                           forall j :: 0 <= j < i ==> handlers[j].name != name by {
        if r.Some? {
          var i :| 0 <= i < |handlers| - 1 && handlers[1..][i] == r.value && r.value.name == name &&
                   forall j :: 0 <= j < i ==> handlers[1..][j].name != name;
          assert handlers[i + 1] == r.value;
          assert forall j :: 0 <= j < i + 1 ==> handlers[j].name != name by {
            forall j | 0 <= j < i + 1 ensures handlers[j].name != name {
              if j > 0 { assert handlers[j] == handlers[1..][j - 1]; }
            }
          }
        }
      }
      r
  }

  /** `get_requirements_path`: `model_dir / requirements`, or nothing without a model
      directory. A plain file name lands in the model directory; a relative path stays
      under it; an absolute one ignores it. */
  function RequirementsPath(c: ModelConfig): (r: Option<Path>)
    ensures r.None? <==> c.modelDir.None?
    ensures r.Some? && c.requirements != "" && c.requirements != "." && '/' !in c.requirements ==>
              Parent(r.value) == c.modelDir.value && Name(r.value) == c.requirements
    ensures r.Some? && !(|c.requirements| > 0 && c.requirements[0] == '/') ==>
              |c.modelDir.value.parts| <= |r.value.parts| && r.value.parts[..|c.modelDir.value.parts|] == c.modelDir.value.parts
    ensures r.Some? && |c.requirements| > 0 && c.requirements[0] == '/' ==> r.value.parts == Components(c.requirements)
  {
    if c.modelDir.None? then None
    else
      JoinTextName(c.modelDir.value, c.requirements);
      Some(JoinText(c.modelDir.value, c.requirements))
  }

  /** `get_client_module_path`: `model_dir / f"{module}.py"`, or nothing without a model
      directory; a module name without '/' gives a file directly in the model directory. */
  function ClientModulePath(c: ModelConfig): (r: Option<Path>)
    ensures r.None? <==> c.modelDir.None?
    ensures r.Some? && '/' !in c.client.moduleName ==>
              Parent(r.value) == c.modelDir.value && Name(r.value) == c.client.moduleName + ".py"
  {
    if c.modelDir.None? then None
    else
      var file := c.client.moduleName + ".py";
      assert file[|file| - 1] == 'y';
      assert '/' !in c.client.moduleName ==> '/' !in file;
      JoinTextName(c.modelDir.value, file);
      Some(JoinText(c.modelDir.value, file))
  }
}
