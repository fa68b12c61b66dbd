/** Model discovery and the registry of model managers. `discover_models` walks a directory
    tree for configuration files; `ModelRegistry` keeps one manager and one configuration
    per registered name. */
module Discovery {
  import opened Values
  import opened Paths
  import opened Schema
  import opened Loader
  import opened Dicts
  import opened Manager

  /** `DiscoveryError`: the base of a scan is not a directory. */
  datatype DiscoveryError = NotADirectoryError(path: Path)

  /** The default `max_depth` of `discover_models`. */
  const DefaultMaxDepth := 3

  /** `name.startswith(".")`. */
  predicate Hidden(name: string) {
    |name| > 0 && name[0] == '.'
  }

  /** How many more levels the scan may still descend from `depth`. */
  function Budget(maxDepth: int, depth: nat): nat {
    if depth > maxDepth then 0 else maxDepth - depth + 1
  }

  /** `scan_dir(dir, depth)` with the enclosing `models` dictionary threaded through: a
      directory deeper than `maxDepth` is ignored; one with a configuration file is
      loaded (a failed load or a name already taken is skipped) and never descended
      into; otherwise its visible subdirectories are scanned, from the base always and
      further down only when `recursive`. */
  function ScanDir(fs: FileSystem, maxDepth: int, recursive: bool, dir: Path, depth: nat,
                   models: Dict<ModelConfig>): Dict<ModelConfig>
    decreases Budget(maxDepth, depth), 1, 0
  {
    if depth > maxDepth then models
    else
      match FindConfig(fs, dir)
      case Some(p) =>
        (match LoadConfig(fs, FromPath(p), Some(dir))
         case Ok(c) => if c.name in Keys(models) then models else Put(models, c.name, c)
         case Err(_) => models)
      case None =>
        if depth == 0 || recursive then ScanChildren(fs, maxDepth, recursive, dir, fs.listDir(dir), depth, models)
        else models
  }

  /** The `for subdir in dir_path.iterdir()` loop of `scan_dir`, over the names still to visit. */
  function ScanChildren(fs: FileSystem, maxDepth: int, recursive: bool, dir: Path, names: seq<string>,
                        depth: nat, models: Dict<ModelConfig>): Dict<ModelConfig>
    requires depth <= maxDepth
    decreases Budget(maxDepth, depth), 0, |names|
  {
    if names == [] then models
    else
      var child := Join(dir, names[0]);
      var next := if child in fs.dirs && !Hidden(names[0])
                  then ScanDir(fs, maxDepth, recursive, child, depth + 1, models)
                  else models;
      ScanChildren(fs, maxDepth, recursive, dir, names[1..], depth, next)
  }

  /** `discover_models`. */
  function DiscoverModels(fs: FileSystem, base: Path, recursive: bool, maxDepth: int): (r: Result<Dict<ModelConfig>, DiscoveryError>)
    ensures r.Err? <==> base !in fs.dirs
    ensures r.Err? ==> r.error == NotADirectoryError(base)
    ensures r.Ok? ==> WellFormed(r.value)
    ensures r.Ok? ==> forall k :: k in Keys(r.value) ==> Discovered(fs, base, maxDepth, recursive, k, Lookup(r.value, k).value)
    ensures r.Ok? ==> forall dir :: Reachable(fs, base, dir, maxDepth, recursive) && LoadConfigFromDir(fs, dir).Ok? ==>
              LoadConfigFromDir(fs, dir).value.name in Keys(r.value)
  {
    if base !in fs.dirs then Err(NotADirectoryError(base))
    else
      assert Below(base, base, 0) by { assert base.parts[..|base.parts|] == base.parts; }
      ScanDirSpec(fs, base, maxDepth, recursive, base, 0, []);
      ScanComplete(fs, base, maxDepth, recursive);
      Ok(ScanDir(fs, maxDepth, recursive, base, 0, []))
  }

  /** The scan from `base` files the model of every reachable directory that loads: under
      its own name, or the name was already taken by a model found earlier. */
  lemma ScanComplete(fs: FileSystem, base: Path, maxDepth: int, recursive: bool)
    requires base in fs.dirs
    ensures forall dir :: Reachable(fs, base, dir, maxDepth, recursive) && LoadConfigFromDir(fs, dir).Ok? ==>
              LoadConfigFromDir(fs, dir).value.name in Keys(ScanDir(fs, maxDepth, recursive, base, 0, []))
  {
    assert Below(base, base, 0) by { assert base.parts[..|base.parts|] == base.parts; }
    forall dir | Reachable(fs, base, dir, maxDepth, recursive) && LoadConfigFromDir(fs, dir).Ok?
      ensures LoadConfigFromDir(fs, dir).value.name in Keys(ScanDir(fs, maxDepth, recursive, base, 0, []))
    {
      ScanDirComplete(fs, base, maxDepth, recursive, base, 0, [], dir, LoadConfigFromDir(fs, dir).value);
    }
  }

  /** The scan from `dir` finds the model of every reachable directory at or under `dir`. */
  lemma {:induction false} ScanDirComplete(fs: FileSystem, base: Path, maxDepth: int, recursive: bool, dir: Path,
                                           depth: nat, models: Dict<ModelConfig>, target: Path, c: ModelConfig)
    requires Below(base, dir, depth)
    requires Reachable(fs, base, target, maxDepth, recursive)
    requires |dir.parts| <= |target.parts| && target.parts[..|dir.parts|] == dir.parts
    requires FindConfig(fs, target).Some? && LoadConfig(fs, FromPath(FindConfig(fs, target).value), Some(target)) == Ok(c)
    ensures c.name in Keys(ScanDir(fs, maxDepth, recursive, dir, depth, models))
    decreases Budget(maxDepth, depth), 0
  {
    if |target.parts| == |dir.parts| {
      assert target.parts == dir.parts;
      KeysPut(models, c.name, c);
    } else {
      NextOnPath(fs, base, maxDepth, recursive, dir, depth, target);
      var child := Join(dir, target.parts[|dir.parts|]);
      ScanDirCompleteAny(fs, base, maxDepth, recursive, child, depth + 1, target, c);
      ScanChildrenFinds(fs, maxDepth, recursive, dir, fs.listDir(dir), depth, models, target.parts[|dir.parts|], c.name);
    }
  }

  /** `ScanDirComplete` for every dictionary of models found before. */
  lemma ScanDirCompleteAny(fs: FileSystem, base: Path, maxDepth: int, recursive: bool, dir: Path,
                           depth: nat, target: Path, c: ModelConfig)
    requires Below(base, dir, depth)
    requires Reachable(fs, base, target, maxDepth, recursive)
    requires |dir.parts| <= |target.parts| && target.parts[..|dir.parts|] == dir.parts
    requires FindConfig(fs, target).Some? && LoadConfig(fs, FromPath(FindConfig(fs, target).value), Some(target)) == Ok(c)
    ensures FindsFromAny(fs, maxDepth, recursive, dir, depth, c.name)
    decreases Budget(maxDepth, depth), 1
  {
    forall m: Dict<ModelConfig> ensures c.name in Keys(ScanDir(fs, maxDepth, recursive, dir, depth, m)) {
      ScanDirComplete(fs, base, maxDepth, recursive, dir, depth, m, target, c);
    }
  }

  /** The scan from `dir` at `depth` finds `k` whatever was found before it. */
  ghost predicate FindsFromAny(fs: FileSystem, maxDepth: int, recursive: bool, dir: Path, depth: nat, k: string) {
    forall m: Dict<ModelConfig> :: k in Keys(ScanDir(fs, maxDepth, recursive, dir, depth, m))
  }

  /** The loop over a directory's entries finds `k` when one of the entries still to visit
      is a visible subdirectory whose scan finds `k` whatever was found before it. */
  lemma {:induction false} ScanChildrenFinds(fs: FileSystem, maxDepth: int, recursive: bool, dir: Path,
                                             names: seq<string>, depth: nat, models: Dict<ModelConfig>,
                                             name: string, k: string)
    requires depth <= maxDepth
    requires name in names && Join(dir, name) in fs.dirs && !Hidden(name)
    requires FindsFromAny(fs, maxDepth, recursive, Join(dir, name), depth + 1, k)
    ensures k in Keys(ScanChildren(fs, maxDepth, recursive, dir, names, depth, models))
    decreases |names|
  {
    var child := Join(dir, names[0]);
    var next := if child in fs.dirs && !Hidden(names[0])
                then ScanDir(fs, maxDepth, recursive, child, depth + 1, models)
                else models;
    if names[0] == name {
      assert k in Keys(next);
      ScanChildrenGrows(fs, maxDepth, recursive, dir, names[1..], depth, next, k);
    } else {
      assert names == [names[0]] + names[1..];
      ScanChildrenFinds(fs, maxDepth, recursive, dir, names[1..], depth, next, name, k);
    }
  }

  /** On the way from `dir` down to a reachable `target`, the scan enters the next
      directory: `dir` has no configuration file and lists it, and it is a visible
      subdirectory, one level deeper and still above `target`. */
  lemma NextOnPath(fs: FileSystem, base: Path, maxDepth: int, recursive: bool, dir: Path, depth: nat, target: Path)
    requires Below(base, dir, depth)
    requires Reachable(fs, base, target, maxDepth, recursive)
    requires |dir.parts| < |target.parts| && target.parts[..|dir.parts|] == dir.parts
    ensures FindConfig(fs, dir).None? && target.parts[|dir.parts|] in fs.listDir(dir)
    ensures depth < maxDepth && (depth == 0 || recursive)
    ensures var child := Join(dir, target.parts[|dir.parts|]);
            && child in fs.dirs && !Hidden(target.parts[|dir.parts|])
            && Below(base, child, depth + 1)
            && |child.parts| <= |target.parts| && target.parts[..|child.parts|] == child.parts
  {
    var n := |base.parts|;
    var child := Join(dir, target.parts[|dir.parts|]);
    assert Entered(fs, base, target, depth);
    assert target.parts[..n + depth] == dir.parts;
    assert Path(target.parts[..n + depth]) == dir;
    assert target.parts[..|child.parts|] == child.parts;
    assert child.parts[..n] == dir.parts[..n];
  }

  /** A name found earlier in the scan is still there at its end. */
  lemma {:induction false} ScanDirGrows(fs: FileSystem, maxDepth: int, recursive: bool, dir: Path, depth: nat,
                                        models: Dict<ModelConfig>, k: string)
    requires k in Keys(models)
    ensures k in Keys(ScanDir(fs, maxDepth, recursive, dir, depth, models))
    decreases Budget(maxDepth, depth), 1, 0
  {
    if depth <= maxDepth {
      match FindConfig(fs, dir)
      case Some(p) => {
        match LoadConfig(fs, FromPath(p), Some(dir))
        case Ok(c) => KeysPut(models, c.name, c);
        case Err(_) =>
      }
      case None =>
        if depth == 0 || recursive {
          ScanChildrenGrows(fs, maxDepth, recursive, dir, fs.listDir(dir), depth, models, k);
        }
    }
  }

  /** A name found earlier in the loop over a directory's entries is still there at its end. */
  lemma {:induction false} ScanChildrenGrows(fs: FileSystem, maxDepth: int, recursive: bool, dir: Path,
                                             names: seq<string>, depth: nat, models: Dict<ModelConfig>, k: string)
    requires depth <= maxDepth && k in Keys(models)
    ensures k in Keys(ScanChildren(fs, maxDepth, recursive, dir, names, depth, models))
    decreases Budget(maxDepth, depth), 0, |names|
  {
    if names != [] {
      var child := Join(dir, names[0]);
      var next := if child in fs.dirs && !Hidden(names[0])
                  then ScanDir(fs, maxDepth, recursive, child, depth + 1, models)
                  else models;
      if child in fs.dirs && !Hidden(names[0]) {
        ScanDirGrows(fs, maxDepth, recursive, child, depth + 1, models, k);
      }
      ScanChildrenGrows(fs, maxDepth, recursive, dir, names[1..], depth, next, k);
    }
  }

  /** The scan went from the ancestor of `dir` at level `i` below `base` into the next
      level: that ancestor has no configuration file, lists the next component, and the
      next component is a visible directory. */
  predicate Entered(fs: FileSystem, base: Path, dir: Path, i: nat)
    requires |base.parts| + i < |dir.parts|
  {
    var parent := Path(dir.parts[..|base.parts| + i]);
    var name := dir.parts[|base.parts| + i];
    && FindConfig(fs, parent).None?
    && name in fs.listDir(parent)
    && Join(parent, name) in fs.dirs
    && !Hidden(name)
  }

  /** `dir` is a directory the scan from `base` inspects: at most `maxDepth` levels below it
      (at most one when not recursive), reached only through visible directories without
      a configuration file. */
  predicate Reachable(fs: FileSystem, base: Path, dir: Path, maxDepth: int, recursive: bool) {
    |base.parts| <= |dir.parts| &&
    var depth := |dir.parts| - |base.parts|;
    && Below(base, dir, depth)
    && depth <= maxDepth
    && (!recursive ==> depth <= 1)
    && forall i :: 0 <= i < depth ==> Entered(fs, base, dir, i)
  }

  /** `c`, found under `name`, is the configuration loaded from a reachable directory's
      configuration file, and `name` is its own name. */
  predicate Discovered(fs: FileSystem, base: Path, maxDepth: int, recursive: bool, name: string, c: ModelConfig) {
    && c.name == name
    && c.modelDir.Some?
    && Reachable(fs, base, c.modelDir.value, maxDepth, recursive)
    && FindConfig(fs, c.modelDir.value).Some?
    && LoadConfig(fs, FromPath(FindConfig(fs, c.modelDir.value).value), c.modelDir) == Ok(c)
  }

  /** `after` is well formed and keeps every entry of `before`: the first model found
      under a name stays. */
  predicate Extends(before: Dict<ModelConfig>, after: Dict<ModelConfig>) {
    && WellFormed(after)
    && forall k :: k in Keys(before) ==> Lookup(after, k) == Lookup(before, k)
  }

  /** Every name in `after` that was not in `before` was discovered. */
  predicate AddsDiscovered(fs: FileSystem, base: Path, maxDepth: int, recursive: bool,
                           before: Dict<ModelConfig>, after: Dict<ModelConfig>) {
    forall k :: k in Keys(after) && k !in Keys(before) ==> Discovered(fs, base, maxDepth, recursive, k, Lookup(after, k).value)
  }

  /** `scan_dir` keeps the models already found and adds only discovered ones. */
  lemma {:induction false} ScanDirSpec(fs: FileSystem, base: Path, maxDepth: int, recursive: bool, dir: Path,
                                       depth: nat, models: Dict<ModelConfig>)
    requires WellFormed(models)
    requires Below(base, dir, depth)
    requires forall i :: 0 <= i < depth ==> Entered(fs, base, dir, i)
    requires recursive || depth <= 1
    ensures Extends(models, ScanDir(fs, maxDepth, recursive, dir, depth, models))
    ensures AddsDiscovered(fs, base, maxDepth, recursive, models, ScanDir(fs, maxDepth, recursive, dir, depth, models))
    decreases Budget(maxDepth, depth), 1, 0
  {
    if depth <= maxDepth {
      match FindConfig(fs, dir)
      case Some(p) => {
        match LoadConfig(fs, FromPath(p), Some(dir))
        case Ok(c) =>
          if c.name !in Keys(models) {
            var after := Put(models, c.name, c);
            PutKeepsWellFormed(models, c.name, c);
            KeysPut(models, c.name, c);
            forall k ensures Lookup(after, k) == if k == c.name then Some(c) else Lookup(models, k) {
              LookupPut(models, c.name, c, k);
            }
            assert Reachable(fs, base, dir, maxDepth, recursive);
          }
        case Err(_) =>
      }
      case None =>
        if depth == 0 || recursive {
          ScanChildrenSpec(fs, base, maxDepth, recursive, dir, fs.listDir(dir), depth, models);
        }
    }
  }

  /** The loop over a directory's entries keeps the models already found and adds only
      discovered ones. */
  lemma {:induction false} ScanChildrenSpec(fs: FileSystem, base: Path, maxDepth: int, recursive: bool, dir: Path,
                                            names: seq<string>, depth: nat, models: Dict<ModelConfig>)
    requires WellFormed(models)
    requires depth <= maxDepth
    requires Below(base, dir, depth)
    requires forall i :: 0 <= i < depth ==> Entered(fs, base, dir, i)
    requires FindConfig(fs, dir).None? && (depth == 0 || recursive)
    requires forall n :: n in names ==> n in fs.listDir(dir)
    ensures Extends(models, ScanChildren(fs, maxDepth, recursive, dir, names, depth, models))
    ensures AddsDiscovered(fs, base, maxDepth, recursive, models, ScanChildren(fs, maxDepth, recursive, dir, names, depth, models))
    decreases Budget(maxDepth, depth), 0, |names|
  {
    if names != [] {
      var child := Join(dir, names[0]);
      var next := if child in fs.dirs && !Hidden(names[0])
                  then ScanDir(fs, maxDepth, recursive, child, depth + 1, models)
                  else models;
      if child in fs.dirs && !Hidden(names[0]) {
        ChildEntered(fs, base, dir, names[0], depth);
        ScanDirSpec(fs, base, maxDepth, recursive, child, depth + 1, models);
      }
      ScanChildrenSpec(fs, base, maxDepth, recursive, dir, names[1..], depth, next);
      Chain(fs, base, maxDepth, recursive, models, next, ScanChildren(fs, maxDepth, recursive, dir, names[1..], depth, next));
    }
  }

  /** Descending from a scanned directory without a configuration file into a visible
      subdirectory it lists keeps the path on the scan. */
  lemma ChildEntered(fs: FileSystem, base: Path, dir: Path, name: string, depth: nat)
    requires Below(base, dir, depth)
    requires forall i :: 0 <= i < depth ==> Entered(fs, base, dir, i)
    requires FindConfig(fs, dir).None? && name in fs.listDir(dir)
    requires Join(dir, name) in fs.dirs && !Hidden(name)
    ensures Below(base, Join(dir, name), depth + 1)
    ensures forall i :: 0 <= i < depth + 1 ==> Entered(fs, base, Join(dir, name), i)
  {
    var child := Join(dir, name);
    var n := |base.parts|;
    assert child.parts == dir.parts + [name];
    forall i | 0 <= i < depth ensures Entered(fs, base, child, i) {
      assert child.parts[..n + i + 1] == dir.parts[..n + i + 1];
      EnteredSame(fs, base, dir, child, i);
    }
    assert child.parts[..n + depth] == dir.parts;
    assert child.parts[..n] == dir.parts[..n];
  }

  /** Whether the scan entered level `i` depends only on the path down to that level. */
  lemma EnteredSame(fs: FileSystem, base: Path, a: Path, b: Path, i: nat)
    requires |base.parts| + i < |a.parts| && |base.parts| + i < |b.parts|
    requires a.parts[..|base.parts| + i + 1] == b.parts[..|base.parts| + i + 1]
    ensures Entered(fs, base, a, i) == Entered(fs, base, b, i)
  {
    var n := |base.parts| + i;
    assert a.parts[..n] == a.parts[..n + 1][..n];
    assert b.parts[..n] == b.parts[..n + 1][..n];
    assert a.parts[n] == a.parts[..n + 1][n];
    assert b.parts[n] == b.parts[..n + 1][n];
  }

  /** Two scan steps compose. */
  lemma Chain(fs: FileSystem, base: Path, maxDepth: int, recursive: bool,
              a: Dict<ModelConfig>, b: Dict<ModelConfig>, c: Dict<ModelConfig>)
    requires Extends(a, b) && AddsDiscovered(fs, base, maxDepth, recursive, a, b)
    requires Extends(b, c) && AddsDiscovered(fs, base, maxDepth, recursive, b, c)
    ensures Extends(a, c) && AddsDiscovered(fs, base, maxDepth, recursive, a, c)
  {
    forall k | k in Keys(a) ensures Lookup(c, k) == Lookup(a, k) {
      assert Lookup(b, k) == Lookup(a, k);
    }
    forall k | k in Keys(c) && k !in Keys(a)
      ensures Discovered(fs, base, maxDepth, recursive, k, Lookup(c, k).value)
    {
      if k in Keys(b) {
        assert Lookup(c, k) == Lookup(b, k);
      }
    }
  }

  /** The errors `ModelRegistry` raises: `ValueError` for a missing source or a taken
      name, `KeyError` for an unknown name, the loader's error, the scan's error, and a
      manager's own error when starting one model. */
  datatype RegistryError =
    | MissingSource
    | AlreadyRegistered(name: string)
    | NotRegistered(name: string)
    | LoadFailed(cause: LoadError)
    | ScanFailed(scan: DiscoveryError)
    | ManagerFailed(error: ManagerError)

  /** The errors `register_from_dir` catches and skips. */
  predicate IsValueError(e: RegistryError) {
    e.MissingSource? || e.AlreadyRegistered?
  }

  /** The configuration `register` settles on: the one given, else the one loaded from
      `model_dir`; neither is a `ValueError`. */
  function RegisterSource(fs: FileSystem, modelDir: Option<Path>, config: Option<ModelConfig>): Result<ModelConfig, RegistryError> {
    if config.Some? then Ok(config.value)
    else if modelDir.None? then Err(MissingSource)
    else
      match LoadConfigFromDir(fs, modelDir.value)
      case Ok(c) => Ok(c)
      case Err(e) => Err(LoadFailed(e))
  }

  /** `name or config.name`. */
  function RegisteredName(name: Option<string>, c: ModelConfig): string {
    if name.Some? && name.value != "" then name.value else c.name
  }

  /** The entries of `d` whose names are not in `taken`, in order. */
  function UnclaimedEntries<V>(d: Dict<V>, taken: seq<string>): Dict<V> {
    if d == [] then []
    else UnclaimedEntries(d[..|d| - 1], taken) + (if d[|d| - 1].0 in taken then [] else [d[|d| - 1]])
  }

  /** The names `UnclaimedEntries` keeps are exactly those of `d` outside `taken`. */
  lemma {:induction false} UnclaimedKeys<V>(d: Dict<V>, taken: seq<string>)
    ensures forall x :: x in Keys(UnclaimedEntries(d, taken)) <==> x in Keys(d) && x !in taken
  {
    if d != [] {
      var n := |d| - 1;
      UnclaimedKeys(d[..n], taken);
      var u := UnclaimedEntries(d[..n], taken);
      var e := if d[n].0 in taken then [] else [d[n]];
      assert UnclaimedEntries(d, taken) == u + e;
      KeysAppend(u, e);
      assert d == d[..n] + [d[n]];
      KeysAppend(d[..n], [d[n]]);
    }
  }

  /** Every entry `UnclaimedEntries` keeps is an entry of `d` whose name is not taken. */
  lemma {:induction false} UnclaimedFrom<V>(d: Dict<V>, taken: seq<string>)
    ensures forall i :: 0 <= i < |UnclaimedEntries(d, taken)| ==>
              UnclaimedEntries(d, taken)[i] in d && UnclaimedEntries(d, taken)[i].0 !in taken
  {
    if d != [] {
      var n := |d| - 1;
      UnclaimedFrom(d[..n], taken);
      var u := UnclaimedEntries(d[..n], taken);
      forall i | 0 <= i < |u| ensures u[i] in d {
        assert u[i] in d[..n];
      }
    }
  }

  /** Every model `discover_models` finds is named after its key. */
  lemma NamedAfterKeys(fs: FileSystem, base: Path, recursive: bool, found: Dict<ModelConfig>)
    requires DiscoverModels(fs, base, recursive, DefaultMaxDepth) == Ok(found)
    ensures WellFormed(found)
    ensures forall i :: 0 <= i < |found| ==> found[i].1.name == found[i].0
  {
    forall i | 0 <= i < |found| ensures found[i].1.name == found[i].0 {
      LookupAt(found, i);
      assert Discovered(fs, base, DefaultMaxDepth, recursive, found[i].0, found[i].1);
    }
  }

  /** A key of a well-formed dictionary is not among the unclaimed keys before it. */
  lemma FreshName<V>(d: Dict<V>, i: int, taken: seq<string>)
    requires WellFormed(d) && 0 <= i < |d|
    ensures d[i].0 !in Keys(UnclaimedEntries(d[..i], taken))
  {
    UnclaimedKeys(d[..i], taken);
    forall j | 0 <= j < i ensures Keys(d[..i])[j] != d[i].0 {
      assert Keys(d)[j] != Keys(d)[i];
    }
  }

  /** Filtering one more entry. */
  lemma UnclaimedStep<V>(d: Dict<V>, i: int, taken: seq<string>)
    requires 0 <= i < |d|
    ensures UnclaimedEntries(d[..i + 1], taken) ==
              UnclaimedEntries(d[..i], taken) + (if d[i].0 in taken then [] else [d[i]])
    ensures Keys(UnclaimedEntries(d[..i + 1], taken)) ==
              Keys(UnclaimedEntries(d[..i], taken)) + (if d[i].0 in taken then [] else [d[i].0])
  {
    assert d[..i + 1][..i] == d[..i];
    var u := UnclaimedEntries(d[..i], taken);
    var e := if d[i].0 in taken then [] else [d[i]];
    KeysAppend(u, e);
  }

  /** After the first `i` discovered models of `found`: `registered` lists the names
      registered, appended to the names taken `before`, and their configurations were
      appended in the same order; the earlier managers stay. */
  ghost predicate Scanned(found: Dict<ModelConfig>, i: int, before: Dict<ModelManager>, beforeConfigs: Dict<ModelConfig>,
                          registered: seq<string>, managers: Dict<ModelManager>, configs: Dict<ModelConfig>)
    requires 0 <= i <= |found|
  {
    && registered == Keys(UnclaimedEntries(found[..i], Keys(before)))
    && Keys(managers) == Keys(before) + registered
    && |before| <= |managers| && managers[..|before|] == before
    && configs == beforeConfigs + UnclaimedEntries(found[..i], Keys(before))
  }

  /** Registering the `i`th discovered model, or skipping it when its name is taken,
      carries `Scanned` over to `i + 1`. */
  lemma ScannedNext(found: Dict<ModelConfig>, i: int, before: Dict<ModelManager>, beforeConfigs: Dict<ModelConfig>,
                    registered: seq<string>, m0: Dict<ModelManager>, c0: Dict<ModelConfig>,
                    added: bool, m1: Dict<ModelManager>, c1: Dict<ModelConfig>)
    requires WellFormed(found) && 0 <= i < |found|
    requires Scanned(found, i, before, beforeConfigs, registered, m0, c0)
    requires added <==> found[i].0 !in Keys(m0)
    requires |m0| <= |m1| && m1[..|m0|] == m0
    requires Keys(m1) == Keys(m0) + (if added then [found[i].0] else [])
    requires c1 == c0 + (if added then [found[i]] else [])
    ensures added <==> found[i].0 !in Keys(before)
    ensures Scanned(found, i + 1, before, beforeConfigs, if added then registered + [found[i].0] else registered, m1, c1)
  {
    var taken := Keys(before);
    var u := UnclaimedEntries(found[..i], taken);
    var e: Dict<ModelConfig> := if added then [found[i]] else [];
    UnclaimedStep(found, i, taken);
    FreshName(found, i, taken);
    PrefixOfPrefix(before, m0, m1);
    Regroup(beforeConfigs, u, c0, e, c1);
    Regroup(taken, registered, Keys(m0), if added then [found[i].0] else [], Keys(m1));
  }

  /** A prefix of a prefix is a prefix. */
  lemma PrefixOfPrefix<T>(a: seq<T>, b: seq<T>, c: seq<T>)
    requires |a| <= |b| <= |c| && b[..|a|] == a && c[..|b|] == b
    ensures c[..|a|] == a
  {
    assert c[..|a|] == c[..|b|][..|a|];
  }

  /** Appending to a concatenation. */
  lemma Regroup<T>(a: seq<T>, b: seq<T>, ab: seq<T>, e: seq<T>, abe: seq<T>)
    requires ab == a + b && abe == ab + e
    ensures abe == a + (b + e)
  {
  }

  /** Deleting a key from two dictionaries with the same keys cuts the same position out
      of both. */
  lemma RemoveBoth<V, W>(ms: Dict<V>, cs: Dict<W>, k: string, p: int)
    requires WellFormed(ms) && WellFormed(cs) && Keys(cs) == Keys(ms)
    requires 0 <= p < |ms| && ms[p].0 == k
    ensures Remove(ms, k) == ms[..p] + ms[p + 1..] && Remove(cs, k) == cs[..p] + cs[p + 1..]
    ensures Keys(ms[..p] + ms[p + 1..]) == Without(Keys(ms), k)
    ensures Keys(cs[..p] + cs[p + 1..]) == Keys(ms[..p] + ms[p + 1..])
  {
    assert cs[p].0 == Keys(cs)[p];
    RemoveAt(ms, p);
    RemoveAt(cs, p);
    RemoveKeys(ms, k);
    RemoveKeys(cs, k);
  }

  /** One row of `status()`. */
  datatype ModelStatus = ModelStatus(running: bool, version: string, handlers: seq<string>)

  class ModelRegistry {
    var managers: Dict<ModelManager>
    var configs: Dict<ModelConfig>
    ghost var Repr: set<object>

    /** The two dictionaries have the same keys in the same order, each name's
        configuration being the one its manager runs; each manager is valid and owns its
        objects apart from the others'. */
    ghost predicate Valid()
      reads this, Repr
    {
      && this in Repr
      && WellFormed(managers)
      && |configs| == |managers|
      && (forall i :: 0 <= i < |managers| ==> configs[i] == (managers[i].0, managers[i].1.config))
      && (forall i :: 0 <= i < |managers| ==> Owns(managers[i].1))
      && (forall i, j :: 0 <= i < |managers| && 0 <= j < |managers| && i != j ==>
            managers[i].1.Repr !! managers[j].1.Repr)
    }

    /** The registry holds `m` and everything `m` owns, and `m` is valid. */
    ghost predicate Owns(m: ModelManager)
      reads this, Repr
    {
      m in Repr && m.Repr <= Repr && this !in m.Repr && m.Valid()
    }

    /** `Valid` makes both dictionaries have the same keys. */
    lemma Paired()
      requires Valid()
      ensures Keys(configs) == Keys(managers) && WellFormed(configs)
    {
      assert Keys(configs) == Keys(managers);
    }

    constructor()
      ensures Valid() && fresh(Repr)
      ensures managers == [] && configs == []
    {
      managers := [];
      configs := [];
      Repr := {this};
    }

    /** `register`. */
    method Register(fs: FileSystem, name: Option<string>, modelDir: Option<Path>, config: Option<ModelConfig>,
                    autoSetupVenv: bool) returns (r: Result<ModelManager, RegistryError>)
      requires Valid()
      modifies this
      ensures Valid() && fresh(Repr - old(Repr))
      ensures r.Err? ==> managers == old(managers) && configs == old(configs)
      ensures RegisterSource(fs, modelDir, config).Err? ==> r == Err(RegisterSource(fs, modelDir, config).error)
      ensures RegisterSource(fs, modelDir, config).Ok? ==>
                var c := RegisterSource(fs, modelDir, config).value;
                var key := RegisteredName(name, c);
                && (key in Keys(old(managers)) ==> r == Err(AlreadyRegistered(key)))
                && (key !in Keys(old(managers)) ==>
                      && r.Ok? && fresh(r.value) && !r.value.isStarted
                      && r.value.config == c && r.value.autoSetupVenv == autoSetupVenv
                      && managers == old(managers) + [(key, r.value)]
                      && configs == old(configs) + [(key, c)])
    {
      var source := RegisterSource(fs, modelDir, config);
      if source.Err? {
        return Err(source.error);
      }
      var c := source.value;
      var key := RegisteredName(name, c);
      if key in Keys(managers) {
        return Err(AlreadyRegistered(key));
      }
      var m := Add(key, c, autoSetupVenv);
      r := Ok(m);
    }

    /** `self._managers[name] = manager` and `self._configs[name] = config` for a new name
        and a fresh, stopped manager. */
    method Add(key: string, c: ModelConfig, autoSetupVenv: bool) returns (m: ModelManager)
      requires Valid() && key !in Keys(managers)
      modifies this
      ensures Valid() && fresh(Repr - old(Repr))
      ensures fresh(m) && !m.isStarted && m.config == c && m.autoSetupVenv == autoSetupVenv
      ensures managers == old(managers) + [(key, m)] && configs == old(configs) + [(key, c)]
    {
      ghost var prev := managers;
      ghost var prevConfigs := configs;
      assert forall i :: 0 <= i < |prev| ==> Owns(prev[i].1);
      m := new ModelManager(c, autoSetupVenv);
      managers := managers + [(key, m)];
      configs := configs + [(key, c)];
      Repr := Repr + m.Repr;
      forall i | 0 <= i < |prev| ensures Owns(prev[i].1) {
      }
      forall i | 0 <= i < |prev| ensures prev[i].1.Repr !! m.Repr {
      }
      SnocValid(prev, prevConfigs, key, m);
    }

    /** Appending a fresh manager that owns its objects apart from the others keeps a
        registry valid. */
    lemma SnocValid(prev: Dict<ModelManager>, prevConfigs: Dict<ModelConfig>, key: string, m: ModelManager)
      requires this in Repr && WellFormed(prev) && key !in Keys(prev) && |prevConfigs| == |prev|
      requires forall i :: 0 <= i < |prev| ==> prevConfigs[i] == (prev[i].0, prev[i].1.config)
      requires forall i :: 0 <= i < |prev| ==> Owns(prev[i].1)
      requires forall i :: 0 <= i < |prev| ==> prev[i].1.Repr !! m.Repr
      requires forall i, j :: 0 <= i < |prev| && 0 <= j < |prev| && i != j ==> prev[i].1.Repr !! prev[j].1.Repr
      requires Owns(m)
      requires managers == prev + [(key, m)] && configs == prevConfigs + [(key, m.config)]
      ensures Valid()
    {
      AppendWellFormed(prev, key, m);
      SnocOwned(prev, key, m);
      SnocDisjoint(prev, key, m);
      SnocPaired(prev, prevConfigs, key, m);
    }

    lemma SnocPaired(prev: Dict<ModelManager>, prevConfigs: Dict<ModelConfig>, key: string, m: ModelManager)
      requires |prevConfigs| == |prev|
      requires forall i :: 0 <= i < |prev| ==> prevConfigs[i] == (prev[i].0, prev[i].1.config)
      requires managers == prev + [(key, m)] && configs == prevConfigs + [(key, m.config)]
      ensures forall i :: 0 <= i < |managers| ==> configs[i] == (managers[i].0, managers[i].1.config)
    {
      forall i | 0 <= i < |managers| ensures configs[i] == (managers[i].0, managers[i].1.config) {
        if i < |prev| {
          assert managers[i] == prev[i] && configs[i] == prevConfigs[i];
        }
      }
    }

    lemma SnocOwned(prev: Dict<ModelManager>, key: string, m: ModelManager)
      requires forall i :: 0 <= i < |prev| ==> Owns(prev[i].1)
      requires Owns(m) && managers == prev + [(key, m)]
      ensures forall i :: 0 <= i < |managers| ==> Owns(managers[i].1)
    {
      forall i | 0 <= i < |managers| ensures Owns(managers[i].1) {
        if i < |prev| {
          assert managers[i] == prev[i];
        } else {
          assert managers[i].1 == m;
        }
      }
    }

    lemma SnocDisjoint(prev: Dict<ModelManager>, key: string, m: ModelManager)
      requires forall i :: 0 <= i < |prev| ==> prev[i].1.Repr !! m.Repr
      requires forall i, j :: 0 <= i < |prev| && 0 <= j < |prev| && i != j ==> prev[i].1.Repr !! prev[j].1.Repr
      requires managers == prev + [(key, m)]
      ensures forall i, j :: 0 <= i < |managers| && 0 <= j < |managers| && i != j ==> managers[i].1.Repr !! managers[j].1.Repr
    {
      forall i, j | 0 <= i < |managers| && 0 <= j < |managers| && i != j
        ensures managers[i].1.Repr !! managers[j].1.Repr
      {
        if i < |prev| {
          assert managers[i] == prev[i];
        }
        if j < |prev| {
          assert managers[j] == prev[j];
        }
      }
    }

    /** `register_from_dir`: registers every discovered model under its own name, skipping
        the names already taken, and returns the names it registered. */
    method RegisterFromDir(fs: FileSystem, base: Path, recursive: bool, autoSetupVenv: bool)
      returns (r: Result<seq<string>, RegistryError>)
      requires Valid()
      modifies this
      ensures Valid() && fresh(Repr - old(Repr))
      ensures base !in fs.dirs ==>
                r == Err(ScanFailed(NotADirectoryError(base))) && managers == old(managers) && configs == old(configs)
      ensures base in fs.dirs ==>
                var found := DiscoverModels(fs, base, recursive, DefaultMaxDepth).value;
                && r.Ok?
                && r.value == Keys(UnclaimedEntries(found, Keys(old(managers))))
                && Keys(managers) == Keys(old(managers)) + r.value
                && managers[..|old(managers)|] == old(managers)
                && configs == old(configs) + UnclaimedEntries(found, Keys(old(managers)))
    {
      var scan := DiscoverModels(fs, base, recursive, DefaultMaxDepth);
      if scan.Err? {
        return Err(ScanFailed(scan.error));
      }
      var found := scan.value;
      NamedAfterKeys(fs, base, recursive, found);
      var registered := RegisterAll(fs, found, autoSetupVenv);
      r := Ok(registered);
    }

    /** The loop of `register_from_dir` over the discovered models, whose configurations
        carry their own keys as names. */
    method RegisterAll(fs: FileSystem, found: Dict<ModelConfig>, autoSetupVenv: bool) returns (registered: seq<string>)
      requires Valid() && WellFormed(found)
      requires forall i :: 0 <= i < |found| ==> found[i].1.name == found[i].0
      modifies this
      ensures Valid() && fresh(Repr - old(Repr))
      ensures registered == Keys(UnclaimedEntries(found, Keys(old(managers))))
      ensures Keys(managers) == Keys(old(managers)) + registered
      ensures managers[..|old(managers)|] == old(managers)
      ensures configs == old(configs) + UnclaimedEntries(found, Keys(old(managers)))
    {
      registered := [];
      var i := 0;
      assert found[..0] == [];
      while i < |found|
        invariant 0 <= i <= |found|
        invariant Valid() && fresh(Repr - old(Repr))
        invariant Scanned(found, i, old(managers), old(configs), registered, managers, configs)
      {
        registered := RegisterStep(fs, found, i, autoSetupVenv, old(managers), old(configs), registered);
        i := i + 1;
      }
      assert found[..|found|] == found;
    }

    /** One iteration of the loop in `register_from_dir`. */
    method RegisterStep(fs: FileSystem, found: Dict<ModelConfig>, i: int, autoSetupVenv: bool,
                        ghost before: Dict<ModelManager>, ghost beforeConfigs: Dict<ModelConfig>, registered: seq<string>)
      returns (registered': seq<string>)
      requires Valid() && WellFormed(found) && 0 <= i < |found|
      requires found[i].1.name == found[i].0
      requires Scanned(found, i, before, beforeConfigs, registered, managers, configs)
      modifies this
      ensures Valid() && fresh(Repr - old(Repr))
      ensures Scanned(found, i + 1, before, beforeConfigs, registered', managers, configs)
    {
      var added := RegisterDiscovered(fs, found[i].0, found[i].1, autoSetupVenv);
      registered' := if added then registered + [found[i].0] else registered;
      ScannedNext(found, i, before, beforeConfigs, registered, old(managers), old(configs), added, managers, configs);
    }

    /** One step of `register_from_dir`: `register(config=c)` for a configuration named
        `name`, where a `ValueError` means the name is taken and is skipped. */
    method RegisterDiscovered(fs: FileSystem, name: string, c: ModelConfig, autoSetupVenv: bool) returns (added: bool)
      requires Valid() && c.name == name
      modifies this
      ensures Valid() && fresh(Repr - old(Repr))
      ensures added <==> name !in Keys(old(managers))
      ensures |old(managers)| <= |managers| && managers[..|old(managers)|] == old(managers)
      ensures Keys(managers) == Keys(old(managers)) + (if added then [name] else [])
      ensures configs == old(configs) + (if added then [(name, c)] else [])
    {
      var res := Register(fs, None, None, Some(c), autoSetupVenv);
      added := res.Ok?;
      if added {
        assert managers[..|old(managers)|] == old(managers);
        assert Keys(managers) == Keys(old(managers)) + [name];
      } else {
        assert managers[..|old(managers)|] == old(managers);
        assert configs == old(configs) + [];
      }
    }

    /** `unregister`: stops the manager when it is running, then removes the name from
        both dictionaries. */
    method Unregister(name: string) returns (err: Option<RegistryError>)
      requires Valid()
      modifies Repr
      ensures Valid() && Repr == old(Repr)
      ensures name !in Keys(old(managers)) ==>
                err == Some(NotRegistered(name)) && managers == old(managers) && configs == old(configs)
      ensures name in Keys(old(managers)) ==>
                && err.None?
                && managers == Remove(old(managers), name) && configs == Remove(old(configs), name)
                && Keys(managers) == Without(Keys(old(managers)), name) && Keys(configs) == Keys(managers)
      ensures name in Keys(old(managers)) ==>
                var p := IndexOf(old(managers), name);
                && (old(managers[p].1.IsRunning()) ==> !old(managers)[p].1.isStarted)
                && (old(managers[p].1.IsRunning()) ==>
                      ModelManager.Halted(old(managers[p].1.process), old(managers[p].1.process.alive),
                                          old(managers[p].1.process.log), 5.0))
                && (!old(managers[p].1.IsRunning()) ==> unchanged(old(managers)[p].1) && unchanged(old(managers)[p].1.Repr))
      ensures forall j :: 0 <= j < |managers| ==> unchanged(managers[j].1) && unchanged(managers[j].1.Repr)
    {
      var p := IndexOf(managers, name);
      if p < 0 {
        return Some(NotRegistered(name));
      }
      Paired();
      RemoveBoth(managers, configs, name, p);
      Evict(p);
      err := None;
    }

    /** Stops the `p`th manager when it is running, then deletes the `p`th entry of both
        dictionaries; the managers that stay are left as they are. */
    method Evict(p: int)
      requires Valid() && 0 <= p < |managers|
      modifies Repr
      ensures Valid() && Repr == old(Repr)
      ensures managers == old(managers)[..p] + old(managers)[p + 1..]
      ensures configs == old(configs)[..p] + old(configs)[p + 1..]
      ensures old(managers[p].1.IsRunning()) ==> !old(managers)[p].1.isStarted
      ensures old(managers[p].1.IsRunning()) ==>
                ModelManager.Halted(old(managers[p].1.process), old(managers[p].1.process.alive),
                                    old(managers[p].1.process.log), 5.0)
      ensures !old(managers[p].1.IsRunning()) ==> unchanged(old(managers)[p].1) && unchanged(old(managers)[p].1.Repr)
      ensures forall j :: 0 <= j < |managers| ==> unchanged(managers[j].1) && unchanged(managers[j].1.Repr)
    {
      StopEntry(p, 5.0);
      ghost var stopped := managers;
      Drop(p);
      forall j | 0 <= j < |managers| ensures unchanged(managers[j].1) && unchanged(managers[j].1.Repr) {
        var k := if j < p then j else j + 1;
        assert managers[j] == stopped[k] && k != p;
      }
    }

    /** Deletes the `p`th entry of both dictionaries. */
    method Drop(p: int)
      requires Valid() && 0 <= p < |managers|
      modifies this
      ensures Valid() && Repr == old(Repr)
      ensures managers == old(managers)[..p] + old(managers)[p + 1..]
      ensures configs == old(configs)[..p] + old(configs)[p + 1..]
      ensures forall j :: 0 <= j < |managers| ==> managers[j] == old(managers)[if j < p then j else j + 1]
      ensures forall j :: 0 <= j < |old(managers)| ==>
                unchanged(old(managers)[j].1) && unchanged(old(managers)[j].1.Repr)
    {
      ghost var prev := managers;
      ghost var prevConfigs := configs;
      managers := managers[..p] + managers[p + 1..];
      configs := configs[..p] + configs[p + 1..];
      CutValid(prev, prevConfigs, p);
    }

    /** Cutting one entry out of both dictionaries of a valid registry leaves it valid. */
    lemma CutValid(prev: Dict<ModelManager>, prevConfigs: Dict<ModelConfig>, p: int)
      requires 0 <= p < |prev| && |prevConfigs| == |prev|
      requires this in Repr && WellFormed(prev)
      requires forall i :: 0 <= i < |prev| ==> prevConfigs[i] == (prev[i].0, prev[i].1.config)
      requires forall i :: 0 <= i < |prev| ==> Owns(prev[i].1)
      requires forall i, j :: 0 <= i < |prev| && 0 <= j < |prev| && i != j ==> prev[i].1.Repr !! prev[j].1.Repr
      requires managers == prev[..p] + prev[p + 1..] && configs == prevConfigs[..p] + prevConfigs[p + 1..]
      ensures Valid()
    {
      forall i | 0 <= i < |managers|
        ensures managers[i] == prev[if i < p then i else i + 1]
        ensures configs[i] == prevConfigs[if i < p then i else i + 1]
      {
      }
      CutWellFormed(prev, p);
    }

    /** `get` (and `registry[name]`). */
    function Get(name: string): (r: Result<ModelManager, RegistryError>)
      reads this
      ensures r.Ok? <==> name in Keys(managers)
      ensures r.Ok? ==> (name, r.value) in managers
      ensures r.Err? ==> r.error == NotRegistered(name)
    {
      match Lookup(managers, name)
      case Some(m) => Ok(m)
      case None => Err(NotRegistered(name))
    }

    /** `get_config`. */
    function GetConfig(name: string): (r: Result<ModelConfig, RegistryError>)
      reads this
      ensures r.Ok? <==> name in Keys(configs)
      ensures r.Ok? ==> (name, r.value) in configs
      ensures r.Err? ==> r.error == NotRegistered(name)
    {
      match Lookup(configs, name)
      case Some(c) => Ok(c)
      case None => Err(NotRegistered(name))
    }

    /** `name in registry`. */
    predicate Contains(name: string)
      reads this
    {
      name in Keys(managers)
    }

    /** `len(registry)`. */
    function Len(): nat
      reads this
    {
      |managers|
    }

    /** The `names` property, which is also what `iter(registry)` yields. */
    function Names(): seq<string>
      reads this
    {
      Keys(managers)
    }

    /** `get`, `get_config`, `in`, `len` and `names` all agree, and the configuration
        `get_config` returns is the one the manager `get` returns runs. */
    lemma Agreement(name: string)
      requires Valid()
      ensures Len() == |Names()| && Distinct(Names())
      ensures Contains(name) <==> name in Names()
      ensures Get(name).Ok? <==> Contains(name)
      ensures GetConfig(name).Ok? <==> Contains(name)
      ensures Get(name).Ok? ==> GetConfig(name) == Ok(Get(name).value.config)
    {
    }

    /** `start(name)`: `get(name).start()`. */
    method StartModel(name: string, launch: Launch) returns (err: Option<RegistryError>)
      requires Valid()
      modifies Repr
      ensures Valid() && fresh(Repr - old(Repr))
      ensures managers == old(managers) && configs == old(configs)
      ensures name !in Keys(managers) ==> err == Some(NotRegistered(name))
      ensures name in Keys(managers) ==>
                var m := managers[IndexOf(managers, name)].1;
                && (old(m.isStarted) ==> err.None?)
                && (!old(m.isStarted) ==>
                      err == (match StartOutcome(m.config, m.autoSetupVenv, old(m.hasVenv), launch)
                              case None => None
                              case Some(e) => Some(ManagerFailed(e))))
                && (err.None? <==> m.isStarted)
                && (old(m.isStarted) ==> unchanged(m) && unchanged(m.Repr))
      ensures forall j :: 0 <= j < |managers| && j != IndexOf(managers, name) ==>
                unchanged(managers[j].1) && unchanged(managers[j].1.Repr)
    {
      var p := IndexOf(managers, name);
      if p < 0 {
        return Some(NotRegistered(name));
      }
      var e := StartAt(p, launch);
      err := if e.Some? then Some(ManagerFailed(e.value)) else None;
    }

    /** `stop(name)`: `get(name).stop()`. */
    method StopModel(name: string, timeout: real) returns (err: Option<RegistryError>)
      requires Valid()
      modifies Repr
      ensures Valid() && Repr == old(Repr)
      ensures managers == old(managers) && configs == old(configs)
      ensures name !in Keys(managers) ==> err == Some(NotRegistered(name))
      ensures name in Keys(managers) ==> err.None? && !managers[IndexOf(managers, name)].1.isStarted
      ensures name in Keys(managers) ==>
                var m := managers[IndexOf(managers, name)].1;
                old(m.isStarted) ==> ModelManager.Halted(old(m.process), old(m.process.alive), old(m.process.log), timeout)
      ensures name in Keys(managers) && !old(managers[IndexOf(managers, name)].1.isStarted) ==>
                unchanged(managers[IndexOf(managers, name)].1.Repr)
      ensures forall j :: 0 <= j < |managers| && j != IndexOf(managers, name) ==>
                unchanged(managers[j].1) && unchanged(managers[j].1.Repr)
    {
      var p := IndexOf(managers, name);
      if p < 0 {
        return Some(NotRegistered(name));
      }
      StopAt(p, timeout);
      err := None;
    }

    /** `stop()` on the `i`th manager; the others are left as they are. */
    method StopAt(i: int, timeout: real)
      requires Valid() && 0 <= i < |managers|
      modifies Repr
      ensures Valid() && Repr == old(Repr)
      ensures managers == old(managers) && configs == old(configs)
      ensures !managers[i].1.isStarted
      ensures old(managers[i].1.isStarted) ==>
                ModelManager.Halted(old(managers[i].1.process), old(managers[i].1.process.alive),
                                    old(managers[i].1.process.log), timeout)
      ensures !old(managers[i].1.isStarted) ==> unchanged(managers[i].1.Repr)
      ensures forall j :: 0 <= j < |managers| && j != i ==> unchanged(managers[j].1) && unchanged(managers[j].1.Repr)
    {
      var m := managers[i].1;
      Apart(i);
      m.Stop(timeout);
    }

    /** What `start_all` records for the `i`th manager, given its state beforehand:
        nothing when it was already started, else the outcome of `start`. */
    static function Expected(m: ModelManager, wasStarted: bool, hadVenv: bool, launch: Launch): Option<ManagerError> {
      if wasStarted then None else StartOutcome(m.config, m.autoSetupVenv, hadVenv, launch)
    }

    /** `start_all`: starts every manager that is not running, in registration order, and
        records each outcome; a failure does not stop the rest. */
    method StartAll(launch: string -> Launch) returns (results: Dict<Option<ManagerError>>)
      requires Valid()
      modifies Repr
      ensures Valid() && fresh(Repr - old(Repr))
      ensures managers == old(managers) && configs == old(configs)
      ensures Keys(results) == Keys(managers)
      ensures forall i :: 0 <= i < |managers| ==>
                && results[i].1 == Expected(managers[i].1, old(managers[i].1.isStarted), old(managers[i].1.hasVenv),
                                            launch(managers[i].0))
                && (results[i].1.None? <==> managers[i].1.isStarted)
      ensures forall i :: 0 <= i < |managers| && old(managers[i].1.isStarted) ==>
                unchanged(managers[i].1) && unchanged(managers[i].1.Repr)
    {
      ghost var started := seq(|managers|, j requires 0 <= j < |managers| reads this, set k | 0 <= k < |managers| :: managers[k].1 =>
                                 managers[j].1.isStarted);
      ghost var hadVenv := seq(|managers|, j requires 0 <= j < |managers| reads this, set k | 0 <= k < |managers| :: managers[k].1 =>
                                 managers[j].1.hasVenv);
      results := [];
      var i := 0;
      while i < |managers|
        invariant Valid() && fresh(Repr - old(Repr))
        invariant managers == old(managers) && configs == old(configs)
        invariant StartedUpTo(results, i, launch, started, hadVenv)
        invariant forall j :: 0 <= j < |managers| && (i <= j || old(managers[j].1.isStarted)) ==>
                    unchanged(managers[j].1) && unchanged(managers[j].1.Repr)
      {
        results := StartStep(results, i, launch, started, hadVenv);
        i := i + 1;
      }
    }

    /** One iteration of `start_all`'s loop: records the `i`th manager's outcome. */
    method StartStep(results: Dict<Option<ManagerError>>, i: int, launch: string -> Launch,
                     ghost started: seq<bool>, ghost hadVenv: seq<bool>) returns (results': Dict<Option<ManagerError>>)
      requires Valid() && StartedUpTo(results, i, launch, started, hadVenv) && i < |managers|
      modifies Repr
      ensures Valid() && fresh(Repr - old(Repr))
      ensures managers == old(managers) && configs == old(configs)
      ensures StartedUpTo(results', i + 1, launch, started, hadVenv)
      ensures old(managers[i].1.isStarted) ==> unchanged(managers[i].1) && unchanged(managers[i].1.Repr)
      ensures forall j :: 0 <= j < |managers| && j != i ==> unchanged(managers[j].1) && unchanged(managers[j].1.Repr)
    {
      var e := StartEntry(i, launch(managers[i].0));
      results' := results + [(managers[i].0, e)];
    }

    /** `start_all` after its first `i` managers: their outcomes are recorded in order,
        and the rest are still as they were (`started`, `hadVenv`). */
    ghost predicate StartedUpTo(results: Dict<Option<ManagerError>>, i: int, launch: string -> Launch,
                                started: seq<bool>, hadVenv: seq<bool>)
      reads this, set k | 0 <= k < |managers| :: managers[k].1
    {
      && 0 <= i <= |managers| && |results| == i && |started| == |managers| && |hadVenv| == |managers|
      && (forall j :: 0 <= j < i ==>
            && results[j].0 == managers[j].0
            && results[j].1 == Expected(managers[j].1, started[j], hadVenv[j], launch(managers[j].0))
            && (results[j].1.None? <==> managers[j].1.isStarted))
      && (forall j :: i <= j < |managers| ==> managers[j].1.isStarted == started[j] && managers[j].1.hasVenv == hadVenv[j])
    }

    /** One step of `start_all`: start the `i`th manager unless it is running; the others
        are left as they are. */
    method StartEntry(i: int, launch: Launch) returns (e: Option<ManagerError>)
      requires Valid() && 0 <= i < |managers|
      modifies Repr
      ensures Valid() && fresh(Repr - old(Repr))
      ensures managers == old(managers) && configs == old(configs)
      ensures e == Expected(managers[i].1, old(managers[i].1.isStarted), old(managers[i].1.hasVenv), launch)
      ensures e.None? <==> managers[i].1.isStarted
      ensures old(managers[i].1.isStarted) ==> unchanged(managers[i].1) && unchanged(managers[i].1.Repr)
      ensures forall j :: 0 <= j < |managers| && j != i ==> unchanged(managers[j].1) && unchanged(managers[j].1.Repr)
    {
      if managers[i].1.IsRunning() {
        return None;
      }
      e := StartAt(i, launch);
    }

    /** `start()` on the `i`th manager; the others are left as they are. */
    method StartAt(i: int, launch: Launch) returns (e: Option<ManagerError>)
      requires Valid() && 0 <= i < |managers|
      modifies Repr
      ensures Valid() && fresh(Repr - old(Repr))
      ensures managers == old(managers) && configs == old(configs)
      ensures e == Expected(managers[i].1, old(managers[i].1.isStarted), old(managers[i].1.hasVenv), launch)
      ensures e.None? <==> managers[i].1.isStarted
      ensures old(managers[i].1.isStarted) ==> unchanged(managers[i].1) && unchanged(managers[i].1.Repr)
      ensures forall j :: 0 <= j < |managers| && j != i ==> unchanged(managers[j].1) && unchanged(managers[j].1.Repr)
    {
      var m := managers[i].1;
      Apart(i);
      e := m.Start(launch);
      forall j | 0 <= j < |managers| && j != i ensures unchanged(managers[j].1) && unchanged(managers[j].1.Repr) {
        assert managers[j].1.Repr !! old(m.Repr);
      }
      Repr := Repr + m.Repr;
      forall j | 0 <= j < |managers| && j != i ensures Owns(managers[j].1) {
      }
      forall j | 0 <= j < |managers| && j != i ensures managers[j].1.Repr !! m.Repr {
      }
      OneChangedValid(i);
    }

    /** The managers other than the `i`th lie outside the objects it owns. */
    lemma Apart(i: int)
      requires Valid() && 0 <= i < |managers|
      ensures forall j :: 0 <= j < |managers| && j != i ==> Owns(managers[j].1)
      ensures forall j :: 0 <= j < |managers| && j != i ==>
                managers[j].1.Repr !! managers[i].1.Repr && managers[j].1 !in managers[i].1.Repr
    {
      forall j | 0 <= j < |managers| && j != i ensures managers[j].1 !in managers[i].1.Repr {
        assert managers[j].1 in managers[j].1.Repr;
      }
    }

    /** A registry whose `i`th manager still owns its objects apart from the others, the
        others being as before, is valid. */
    lemma OneChangedValid(i: int)
      requires 0 <= i < |managers| && this in Repr && WellFormed(managers) && |configs| == |managers|
      requires forall j :: 0 <= j < |managers| ==> configs[j] == (managers[j].0, managers[j].1.config)
      requires Owns(managers[i].1)
      requires forall j :: 0 <= j < |managers| && j != i ==> Owns(managers[j].1)
      requires forall j :: 0 <= j < |managers| && j != i ==> managers[j].1.Repr !! managers[i].1.Repr
      requires forall j, k :: 0 <= j < |managers| && 0 <= k < |managers| && j != i && k != i && j != k ==>
                 managers[j].1.Repr !! managers[k].1.Repr
      ensures Valid()
    {
      assert forall j :: 0 <= j < |managers| ==> Owns(managers[j].1);
      forall j, k | 0 <= j < |managers| && 0 <= k < |managers| && j != k
        ensures managers[j].1.Repr !! managers[k].1.Repr
      {
        if k == i {
        } else if j == i {
          assert managers[k].1.Repr !! managers[j].1.Repr;
        }
      }
    }

    /** `stop_all`: stops every running manager with the given timeout; the others are
        left as they are. */
    method StopAll(timeout: real)
      requires Valid()
      modifies Repr
      ensures Valid() && Repr == old(Repr)
      ensures managers == old(managers) && configs == old(configs)
      ensures forall i :: 0 <= i < |managers| ==>
                && (old(managers[i].1.IsRunning()) ==> !managers[i].1.isStarted)
                && (old(managers[i].1.IsRunning()) ==>
                      ModelManager.Halted(old(managers[i].1.process), old(managers[i].1.process.alive),
                                          old(managers[i].1.process.log), timeout))
                && (!old(managers[i].1.IsRunning()) ==> unchanged(managers[i].1) && unchanged(managers[i].1.Repr))
    {
      ghost var procs := seq(|managers|, j requires 0 <= j < |managers| && Valid() reads this, Repr =>
                               managers[j].1.process);
      ghost var running := seq(|managers|, j requires 0 <= j < |managers| && Valid() reads this, Repr =>
                                 managers[j].1.IsRunning());
      ghost var alive := seq(|managers|, j requires 0 <= j < |managers| && Valid() reads this, Repr =>
                               managers[j].1.process != null && managers[j].1.process.alive);
      ghost var logs := seq(|managers|, j requires 0 <= j < |managers| && Valid() reads this, Repr =>
                              if managers[j].1.process != null then managers[j].1.process.log else []);
      var i := 0;
      while i < |managers|
        invariant Valid() && Repr == old(Repr)
        invariant managers == old(managers) && configs == old(configs)
        invariant StoppedUpTo(i, timeout, running, procs, alive, logs)
        invariant forall j :: 0 <= j < |managers| && (i <= j || !running[j]) ==>
                    unchanged(managers[j].1) && unchanged(managers[j].1.Repr)
      {
        StopStep(i, timeout, running, procs, alive, logs);
        i := i + 1;
      }
    }

    /** `stop_all` after its first `i` managers, measured against the managers' state
        before the loop: whether each was running (`running`), its process (`procs`) and
        that process's liveness and signals (`alive`, `logs`). Each of the first `i` that
        was running is no longer started and its process was halted; the rest are as
        they were. */
    ghost predicate StoppedUpTo(i: int, timeout: real, running: seq<bool>, procs: seq<Process?>,
                                alive: seq<bool>, logs: seq<seq<Signal>>)
      requires Valid()
      reads this, Repr
    {
      && 0 <= i <= |managers|
      && |running| == |managers| && |procs| == |managers| && |alive| == |managers| && |logs| == |managers|
      && (forall j :: 0 <= j < i && running[j] ==>
            && procs[j] != null && procs[j] in managers[j].1.Repr && !managers[j].1.isStarted
            && ModelManager.Halted(procs[j], alive[j], logs[j], timeout))
      && (forall j :: i <= j < |managers| ==>
            && managers[j].1.process == procs[j] && managers[j].1.IsRunning() == running[j]
            && (procs[j] != null ==> procs[j].alive == alive[j] && procs[j].log == logs[j]))
    }

    /** One iteration of `stop_all`'s loop. */
    method StopStep(i: int, timeout: real, ghost running: seq<bool>, ghost procs: seq<Process?>,
                    ghost alive: seq<bool>, ghost logs: seq<seq<Signal>>)
      requires Valid() && 0 <= i < |managers| && StoppedUpTo(i, timeout, running, procs, alive, logs)
      modifies Repr
      ensures Valid() && Repr == old(Repr)
      ensures managers == old(managers) && configs == old(configs)
      ensures StoppedUpTo(i + 1, timeout, running, procs, alive, logs)
      ensures !running[i] ==> unchanged(managers[i].1) && unchanged(managers[i].1.Repr)
      ensures forall j :: 0 <= j < |managers| && j != i ==> unchanged(managers[j].1) && unchanged(managers[j].1.Repr)
    {
      StopEntry(i, timeout);
    }

    /** One step of `stop_all`. */
    method StopEntry(i: int, timeout: real)
      requires Valid() && 0 <= i < |managers|
      modifies Repr
      ensures Valid() && Repr == old(Repr)
      ensures managers == old(managers) && configs == old(configs)
      ensures old(managers[i].1.IsRunning()) ==> !managers[i].1.isStarted
      ensures old(managers[i].1.IsRunning()) ==>
                ModelManager.Halted(old(managers[i].1.process), old(managers[i].1.process.alive),
                                    old(managers[i].1.process.log), timeout)
      ensures managers[i].1.Repr == old(managers[i].1.Repr)
      ensures !old(managers[i].1.IsRunning()) ==> unchanged(managers[i].1) && unchanged(managers[i].1.Repr)
      ensures forall j :: 0 <= j < |managers| && j != i ==>
                unchanged(managers[j].1) && unchanged(managers[j].1.Repr) &&
                old(managers[j].1.IsRunning()) == managers[j].1.IsRunning()
    {
      var m := managers[i].1;
      if m.IsRunning() {
        m.Stop(timeout);
      }
    }

    /** `status()`: one row per registered name, in order, with whether its manager is
        running and the version and handler names of the configuration it runs. */
    function Status(): (r: Dict<ModelStatus>)
      requires Valid()
      reads this, Repr
      ensures Keys(r) == Keys(managers)
      ensures forall i :: 0 <= i < |managers| ==>
                r[i].1 == ModelStatus(managers[i].1.IsRunning(), managers[i].1.config.version,
                                      HandlerNames(managers[i].1.config.handlers))
    {
      // `Valid` keeps `configs[i]` the entry for the `i`th name, as `self._configs[name]` reads it.
      var r := seq(|managers|, i requires 0 <= i < |managers| && Valid() reads this, Repr =>
                 (managers[i].0, ModelStatus(managers[i].1.IsRunning(), configs[i].1.version, HandlerNames(configs[i].1.handlers))));
      assert Keys(r) == Keys(managers);
      r
    }
  }
}
