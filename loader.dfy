/** Finding and loading a model's configuration file. The filesystem is the set of paths
    that exist; reading and parsing a file (YAML or TOML) and pydantic's structural
    validation are functions supplied with it. */
module Loader {
  import opened Values
  import opened Paths
  import opened Schema

  /** What a parser makes of one file: a document, a syntax error, or an `OSError`
      raised while opening or reading it. */
  datatype ParseOutcome = Parsed(doc: Value) | SyntaxError | ReadError

  datatype FileSystem = FileSystem(
    dirs: set<Path>,
    files: set<Path>,
    /** `yaml.safe_load` of the file's text. */
    yaml: Path -> ParseOutcome,
    /** `tomllib.load` of the file's bytes. */
    toml: Path -> ParseOutcome,
    /** `ModelConfig.model_validate`, apart from the name rule, which is `ValidateName`. */
    validate: Value -> Option<ModelConfig>,
    /** The names `Path.iterdir` yields for a directory, in its order. */
    listDir: Path -> seq<string>)

  predicate Exists(fs: FileSystem, p: Path) {
    p in fs.dirs || p in fs.files
  }

  datatype ConfigReason =
    | DictWithoutModelDir
    | FileNotFound
    | UnsupportedFormat(suffix: string)
    | InvalidYaml
    | UnreadableFile
    | InvalidConfiguration
    | NotADirectory
    | NoConfigFile

  /** `ConfigError` with its cause; TOML failures are not wrapped and escape as
      `TOMLDecodeError` or `OSError`. */
  datatype LoadError = ConfigError(reason: ConfigReason) | TomlDecodeError | OsError

  /** The first argument of `load_config`: a dictionary or a file path. */
  datatype Source = FromDict(fields: map<string, Value>) | FromPath(path: Path)

  /** `load_yaml`: an empty (or otherwise falsy) document reads as `{}`. */
  function LoadYaml(fs: FileSystem, p: Path): (r: Result<Value, LoadError>)
    ensures r.Ok? <==> fs.yaml(p).Parsed?
    ensures r.Ok? ==> r.value == (if Truthy(fs.yaml(p).doc) then fs.yaml(p).doc else EmptyObject)
    ensures fs.yaml(p).SyntaxError? ==> r == Err(ConfigError(InvalidYaml))
    ensures fs.yaml(p).ReadError? ==> r == Err(ConfigError(UnreadableFile))
  {
    match fs.yaml(p)
    case Parsed(doc) => Ok(OrElse(doc, EmptyObject))
    case SyntaxError => Err(ConfigError(InvalidYaml))
    case ReadError => Err(ConfigError(UnreadableFile))
  }

  /** Validation of a loaded document, then `config.model_dir = model_dir`. */
  function Validate(fs: FileSystem, doc: Value, modelDir: Path): (r: Result<ModelConfig, LoadError>)
    ensures r.Ok? <==> fs.validate(doc).Some? && ValidateName(fs.validate(doc).value.name).Ok?
    ensures r.Ok? ==> r.value == fs.validate(doc).value.(modelDir := Some(modelDir))
    ensures r.Err? ==> r.error == ConfigError(InvalidConfiguration)
  {
    match fs.validate(doc)
    case None => Err(ConfigError(InvalidConfiguration))
    case Some(c) =>
      if ValidateName(c.name).Err? then Err(ConfigError(InvalidConfiguration))
      else Ok(c.(modelDir := Some(modelDir)))
  }

  /** The model directory `load_config` settles on: the one given, else the file's parent. */
  function EffectiveDir(source: Source, modelDir: Option<Path>): Option<Path> {
    if modelDir.Some? then modelDir
    else if source.FromPath? then Some(Parent(source.path))
    else None
  }

  /** `load_config`. */
  function LoadConfig(fs: FileSystem, source: Source, modelDir: Option<Path>): (r: Result<ModelConfig, LoadError>)
    ensures r.Ok? ==> ValidateName(r.value.name).Ok? && r.value.modelDir == EffectiveDir(source, modelDir)
    ensures source.FromDict? && modelDir.None? ==> r == Err(ConfigError(DictWithoutModelDir))
    ensures source.FromPath? && !Exists(fs, source.path) ==> r == Err(ConfigError(FileNotFound))
    ensures source.FromPath? && Exists(fs, source.path) && Suffix(source.path) !in {".yaml", ".yml", ".toml"} ==>
              r == Err(ConfigError(UnsupportedFormat(Suffix(source.path))))
    ensures r.Err? && !r.error.ConfigError? ==> source.FromPath? && Suffix(source.path) == ".toml"
    ensures r.Ok? ==> source.FromDict? || Suffix(source.path) in {".yaml", ".yml", ".toml"}
  {
    match source
    case FromDict(fields) =>
      if modelDir.None? then Err(ConfigError(DictWithoutModelDir))
      else Validate(fs, Object(fields), modelDir.value)
    case FromPath(p) =>
      if !Exists(fs, p) then Err(ConfigError(FileNotFound))
      else
        var dir := if modelDir.Some? then modelDir.value else Parent(p);
        var suffix := Suffix(p);
        if suffix == ".yaml" || suffix == ".yml" then
          match LoadYaml(fs, p)
          case Ok(doc) => Validate(fs, doc, dir)
          case Err(e) => Err(e)
        else if suffix == ".toml" then
          match fs.toml(p)
          case Parsed(doc) => Validate(fs, doc, dir)
          case SyntaxError => Err(TomlDecodeError)
          case ReadError => Err(OsError)
        else Err(ConfigError(UnsupportedFormat(suffix)))
  }

  /** What `load_config` does with what it read: a dictionary (given a model directory) is
      validated as it is; a ".yaml" or ".yml" file goes through `load_yaml`, a ".toml"
      file through the TOML parser, and what either parses to is validated with the
      effective model directory. */
  lemma LoadConfigDispatch(fs: FileSystem, source: Source, modelDir: Option<Path>)
    ensures source.FromDict? && modelDir.Some? ==>
              LoadConfig(fs, source, modelDir) == Validate(fs, Object(source.fields), modelDir.value)
    ensures source.FromPath? && Exists(fs, source.path) && Suffix(source.path) in {".yaml", ".yml"} ==>
              LoadConfig(fs, source, modelDir) ==
                match LoadYaml(fs, source.path)
                case Ok(doc) => Validate(fs, doc, EffectiveDir(source, modelDir).value)
                case Err(e) => Err(e)
    ensures source.FromPath? && Exists(fs, source.path) && Suffix(source.path) == ".toml" ==>
              LoadConfig(fs, source, modelDir) ==
                match fs.toml(source.path)
                case Parsed(doc) => Validate(fs, doc, EffectiveDir(source, modelDir).value)
                case SyntaxError => Err(TomlDecodeError)
                case ReadError => Err(OsError)
  {
  }

  /** Loading a file is loading the dictionary its parser produced, with the file's
      directory as the model directory; an empty YAML document loads as `{}`. */
  lemma FileLoadsAsDict(fs: FileSystem, p: Path, fields: map<string, Value>)
    requires Exists(fs, p)
    requires || (Suffix(p) in {".yaml", ".yml"} && fs.yaml(p).Parsed? && OrElse(fs.yaml(p).doc, EmptyObject) == Object(fields))
             || (Suffix(p) == ".toml" && fs.toml(p) == Parsed(Object(fields)))
    ensures LoadConfig(fs, FromPath(p), None) == LoadConfig(fs, FromDict(fields), Some(Parent(p)))
  {
  }

  /** A YAML file whose parse fails never validates: the failure is a `ConfigError`
      naming the syntax error or the unreadable file, never an invalid configuration. */
  lemma YamlFailureIsReported(fs: FileSystem, p: Path, modelDir: Option<Path>)
    requires Exists(fs, p) && Suffix(p) in {".yaml", ".yml"} && !fs.yaml(p).Parsed?
    ensures LoadConfig(fs, FromPath(p), modelDir).Err?
    ensures LoadConfig(fs, FromPath(p), modelDir).error ==
              ConfigError(if fs.yaml(p).SyntaxError? then InvalidYaml else UnreadableFile)
  {
  }

  /** The candidate file names, in priority order. */
  const ConfigNames: seq<string> := ["model.yaml", "model.yml", "model.toml"]

  /** The first of `names` that exists under `dir`. */
  function FirstExisting(fs: FileSystem, dir: Path, names: seq<string>): (r: Option<Path>)
    ensures r.Some? ==> Exists(fs, r.value)
  {
    if names == [] then None
    else if Exists(fs, Join(dir, names[0])) then Some(Join(dir, names[0]))
    else FirstExisting(fs, dir, names[1..])
  }

  /** `FirstExisting` finds nothing exactly when none of the names exists. */
  lemma {:induction false} FirstExistingNone(fs: FileSystem, dir: Path, names: seq<string>)
    ensures FirstExisting(fs, dir, names).None? <==> forall i :: 0 <= i < |names| ==> !Exists(fs, Join(dir, names[i]))
  {
    if names != [] && !Exists(fs, Join(dir, names[0])) {
      FirstExistingNone(fs, dir, names[1..]);
      assert forall i :: 1 <= i < |names| ==> names[i] == names[1..][i - 1];
    }
  }

  /** What `FirstExisting` finds is the `i`th name for an `i` before which none exists. */
  lemma {:induction false} FirstExistingSome(fs: FileSystem, dir: Path, names: seq<string>) returns (i: int)
    requires FirstExisting(fs, dir, names).Some?
    ensures 0 <= i < |names| && FirstExisting(fs, dir, names).value == Join(dir, names[i])
    ensures forall j :: 0 <= j < i ==> !Exists(fs, Join(dir, names[j]))
  {
    if Exists(fs, Join(dir, names[0])) {
      i := 0;
    } else {
      var k := FirstExistingSome(fs, dir, names[1..]);
      i := k + 1;
      assert forall j :: 1 <= j < |names| ==> names[j] == names[1..][j - 1];
    }
  }

  /** `find_config`. */
  function FindConfig(fs: FileSystem, dir: Path): Option<Path> {
    FirstExisting(fs, dir, ConfigNames)
  }

  /** `find_config` prefers `model.yaml`, then `model.yml`, then `model.toml`. */
  lemma FindConfigPriority(fs: FileSystem, dir: Path)
    ensures FindConfig(fs, dir) ==
      if Exists(fs, Join(dir, "model.yaml")) then Some(Join(dir, "model.yaml"))
      else if Exists(fs, Join(dir, "model.yml")) then Some(Join(dir, "model.yml"))
      else if Exists(fs, Join(dir, "model.toml")) then Some(Join(dir, "model.toml"))
      else None
  {
    var ns := ConfigNames;
    assert ns[0] == "model.yaml" && ns[1..][0] == "model.yml" && ns[1..][1..][0] == "model.toml";
    assert ns[1..][1..][1..] == [];
    assert FirstExisting(fs, dir, ns[1..][1..][1..]) == None;
    assert FirstExisting(fs, dir, ns[1..][1..]) ==
      if Exists(fs, Join(dir, "model.toml")) then Some(Join(dir, "model.toml")) else None;
    assert FirstExisting(fs, dir, ns[1..]) ==
      if Exists(fs, Join(dir, "model.yml")) then Some(Join(dir, "model.yml"))
      else FirstExisting(fs, dir, ns[1..][1..]);
  }

  /** A file `find_config` returns sits in the directory searched and has a suffix
      `load_config` accepts, so loading it never fails for its format or its absence. */
  lemma FoundConfigIsLoadable(fs: FileSystem, dir: Path)
    requires FindConfig(fs, dir).Some?
    ensures Parent(FindConfig(fs, dir).value) == dir
    ensures Exists(fs, FindConfig(fs, dir).value)
    ensures Suffix(FindConfig(fs, dir).value) in {".yaml", ".yml", ".toml"}
  {
    FindConfigPriority(fs, dir);
    var p := FindConfig(fs, dir).value;
    var n := Name(p);
    assert n == "model.yaml" || n == "model.yml" || n == "model.toml";
    assert n[5] == '.' && forall j :: 5 < j < |n| ==> n[j] != '.';
    assert n[..5] == "model";
    var i := LastIndexOf(n, '.');
    assert i == 5;
  }

  /** `load_config_from_dir`. */
  function LoadConfigFromDir(fs: FileSystem, dir: Path): (r: Result<ModelConfig, LoadError>)
    ensures dir !in fs.dirs ==> r == Err(ConfigError(NotADirectory))
    ensures dir in fs.dirs && FindConfig(fs, dir).None? ==> r == Err(ConfigError(NoConfigFile))
    ensures r.Ok? ==> r.value.modelDir == Some(dir) && ValidateName(r.value.name).Ok?
    ensures r.Err? ==> r.error.ConfigError? ==>
              r.error.reason in {NotADirectory, NoConfigFile, InvalidYaml, UnreadableFile, InvalidConfiguration}
    ensures dir in fs.dirs && FindConfig(fs, dir).Some? ==> r == LoadConfig(fs, FromPath(FindConfig(fs, dir).value), Some(dir))
  {
    if dir !in fs.dirs then Err(ConfigError(NotADirectory))
    else
      match FindConfig(fs, dir)
      case None => Err(ConfigError(NoConfigFile))
      case Some(p) =>
        FoundConfigIsLoadable(fs, dir);
        LoadConfig(fs, FromPath(p), Some(dir))
  }
}
