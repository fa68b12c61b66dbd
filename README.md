# pymodelserve in Dafny

pymodelserve runs machine-learning models in worker processes, each with its own virtual
environment, and serves requests to them from the parent process. This project models
and proves properties of its core:

- **Configuration** (`schema.dfy`, `loader.dfy`). The `model.yaml` record covers its
  field defaults, the model-name rule, handler lookups and the derived paths. Loading
  covers `find_config`'s file priority, `load_config`'s dispatch on source and suffix,
  and its error cases.
- **The pipe channel** (`ipc.dfy`). `NamedPipeServer` and `NamedPipeClient` exchange
  JSON documents, one per line, over two FIFOs. A write end is modelled by the text
  written to it. A read end is modelled by the text still unread.
- **The worker** (`client.dfy`). `ModelClient` covers handler discovery, `handle_message`
  dispatch, the built-in `ping` and `shutdown` handlers, and the `run` loop. The loop
  answers one response per request and stops at end of input or right after `shutdown`.
- **The manager** (`manager.dfy`). `ModelManager` covers `start` (venv check, pipe setup,
  launch environment, connect, ping), staged `stop`, `request`, `ping` and `restart`.
  The operating-system process is a `Process` handle. What the environment does during
  a start is a `Launch` value.
- **Discovery and the registry** (`finder.dfy`). `discover_models` is a pure fold over the
  directory tree. `ModelRegistry` keeps two parallel dictionaries whose key lists stay
  identical.
- **Health monitoring** (`checker.dfy`). `HealthChecker.check_all` loops over the monitored
  managers. It updates one record per name, counts consecutive failures, calls the
  callbacks, and restarts a model at the threshold.
- **The Django global registry** (`global_registry.dfy`).

Shared modules:

- `values.dfy`: Option/Result, JSON-like documents, Python truthiness and `in`.
- `paths.dfy`: `pathlib` paths.
- `dicts.dfy`: Python's insertion-ordered `dict`, as a sequence of pairs with distinct keys.
- `text.dfy`: `str(int)`, `join` and `split`.

`json.dumps`/`json.loads` are a `Codec` value. The fact that section 7 of RFC 8259
guarantees, that an encoded document holds no raw line feed and decodes back to itself,
is the predicate `Ipc.LineSafe`. Lemmas that need it take it as a hypothesis.

Some behaviour one might expect of a model server is not what the code does, and the
model follows the code:

- **Framing.** Messages are newline-delimited JSON, not length-prefixed frames.
- **Requests.** A request is strictly send-then-receive on one channel. There are no
  correlation ids, no table of pending calls, no per-request timeouts and no
  multiplexing.
- **Startup.** `start` has no startup timeout. The readiness check is a `ping` request
  sent by the manager, not a message the worker sends on its own.
- **Failed restart.** The health record has no `Dead` state, and a failed restart does
  not reset the failure count: `_restart_model` leaves the record untouched. So the next
  failed check restarts the model again (`Health.FailedRestartRetries`).
- **`handle_message` as a handler.** The worker also registers its own `handle_message`
  method as a handler named `message`, because discovery turns every public `handle_X`
  into `X`. `Client.BaseHandlers` states this.

## Model

| member | source | states |
|---|---|---|
| Schema.WithDefaults | src/pymodelserve/config/schema.py:41-77 | a configuration giving only name and client has version "1.0.0", python ">=3.11", requirements "requirements.txt", health 30/5/3, no handlers, no resource limits and no model directory |
| Schema.StripSeparators | src/pymodelserve/config/schema.py:85 | the result holds exactly the characters of the name that are not "_" or "-" |
| Schema.ValidateNameSpec | src/pymodelserve/config/schema.py:81-87 | a name is accepted iff it consists of letters, digits, "_" and "-" and has at least one letter or digit (so spaces and separator-only names are refused); an accepted name is returned unchanged |
| Schema.HandlerNames | src/pymodelserve/config/schema.py:89-91 | one name per handler, in declaration order |
| Schema.GetHandler | src/pymodelserve/config/schema.py:93-98 | None iff no handler has the name; otherwise the first handler declared with that name |
| Schema.RequirementsPath | src/pymodelserve/config/schema.py:100-104 | None iff model_dir is None; a plain file name lands directly in model_dir under that name; a relative path stays under model_dir; an absolute path ignores model_dir and is its own components |
| Schema.ClientModulePath | src/pymodelserve/config/schema.py:106-110 | None iff model_dir is None; for a module name without '/', a file directly in model_dir named `<module>.py` |
| Paths.JoinText | src/pymodelserve/config/schema.py:104 | pathlib's `/` with a string: an absolute string restarts from the root, a relative one extends the path, keeping it as a prefix |
| Paths.JoinTextName | src/pymodelserve/config/schema.py:104 | a plain file name (not empty, not ".", no '/') is appended as a single component |
| Loader.LoadYaml | src/pymodelserve/config/loader.py:17-35 | a parsed document is returned, with an empty (falsy) one read as `{}`; a YAML syntax error and a read error become distinct ConfigErrors |
| Loader.Validate | src/pymodelserve/config/loader.py:82-87 | succeeds iff pydantic validation and the name rule both accept the document; the result is the validated record with model_dir set; any failure is ConfigError("Invalid configuration") |
| Loader.LoadConfigDispatch | src/pymodelserve/config/loader.py:54-87 | a dict with model_dir is validated as is; a .yaml/.yml file goes through load_yaml and a .toml file through the TOML parser (its syntax and read errors escape unwrapped), and the parsed document is validated with the effective model_dir |
| Loader.FileLoadsAsDict | src/pymodelserve/config/loader.py:54-87 | loading a file equals loading the dictionary it parses to, with the file's parent as model_dir; an empty YAML document loads as `{}` |
| Loader.YamlFailureIsReported | src/pymodelserve/config/loader.py:29-35 | a YAML file that does not parse fails with the ConfigError of its syntax or read error, whatever model_dir is given |
| Loader.LoadConfig | src/pymodelserve/config/loader.py:38-87 | a dict without model_dir, a missing file and an unsupported suffix are ConfigErrors; a loaded config has a valid name and model_dir equal to the one given or else the file's parent; only a .toml file can fail with an unwrapped error; success needs a dict or a .yaml/.yml/.toml file |
| Loader.FirstExistingNone | src/pymodelserve/config/loader.py:101-105 | the candidate search finds nothing iff no candidate exists |
| Loader.FirstExistingSome | src/pymodelserve/config/loader.py:101-105 | what the search finds is the first existing candidate: every earlier one is missing |
| Loader.FindConfigPriority | src/pymodelserve/config/loader.py:90-105 | `find_config` returns model.yaml if it exists, else model.yml, else model.toml, else None |
| Loader.FoundConfigIsLoadable | src/pymodelserve/config/loader.py:101-105 | a found config file lies in the searched directory, exists, and has a suffix `load_config` accepts |
| Loader.LoadConfigFromDir | src/pymodelserve/config/loader.py:108-129 | a non-directory and a directory without a config file are ConfigErrors; otherwise the result is load_config of the file find_config picks, with the directory as model_dir; a loaded config has model_dir equal to the directory and a valid name |
| Ipc.PipeInPath | src/pymodelserve/core/ipc.py:34-36 | pipe_in_path lies in pipe_dir and is named pipe_in_name |
| Ipc.PipeOutPath | src/pymodelserve/core/ipc.py:38-40 | pipe_out_path lies in pipe_dir and is named pipe_out_name |
| Ipc.PipePathsDistinct | src/pymodelserve/core/ipc.py:26-40 | the two pipe paths differ iff their names differ, and they always differ with the defaults "pipe_in" and "pipe_out" |
| Ipc.ReadLine | src/pymodelserve/core/ipc.py:106-107 | readline splits the stream into line and rest; the line is empty only at end of input, has no newline before its end, and lacks a final newline only at end of input |
| Ipc.ReadLineFrame | src/pymodelserve/core/ipc.py:97-110 | reading a line from a stream that starts with a sent message yields exactly that message's line |
| Ipc.FramesRoundTrip | src/pymodelserve/core/ipc.py:92-110 | decoding, line by line, everything a sender wrote gives back the messages sent, in order |
| Ipc.FramesAppend | src/pymodelserve/core/ipc.py:97-99 | writing one more message extends the stream by that message's line |
| Ipc.NamedPipeServer.constructor | src/pymodelserve/core/ipc.py:50-55 | a new server holds the given config, no pipes, no temp dir, and is not connected |
| Ipc.NamedPipeServer.Config | src/pymodelserve/core/ipc.py:57-61 | the config property fails with PipeNotConnectedError iff no config is set |
| Ipc.NamedPipeServer.Setup | src/pymodelserve/core/ipc.py:67-78 | setup records the temp dir and the default pipe config for it, and leaves the pipes alone |
| Ipc.NamedPipeServer.Connect | src/pymodelserve/core/ipc.py:80-90 | connect without setup fails with PipeNotConnectedError; a failing open leaves it disconnected (the first pipe stays open if the second open fails); success opens both pipes and connects |
| Ipc.NamedPipeServer.Send | src/pymodelserve/core/ipc.py:92-99 | send fails iff not connected, changing nothing; otherwise it appends exactly the encoded message and one newline to pipe_in |
| Ipc.NamedPipeServer.Receive | src/pymodelserve/core/ipc.py:101-110 | receive fails when not connected; otherwise it consumes one line of pipe_out and decodes it, with end of file an IPCError |
| Ipc.NamedPipeServer.Request | src/pymodelserve/core/ipc.py:112-115 | request sends `{"message": t, "data": data or {}}` and returns the next line received |
| Ipc.NamedPipeServer.Close | src/pymodelserve/core/ipc.py:117-142 | close disconnects and clears both pipes, the temp dir and the config, from any state |
| Ipc.ServerDecode | src/pymodelserve/core/ipc.py:106-110 | an empty line (EOF) is "Connection closed by client"; otherwise success iff the line decodes |
| Ipc.ClientDecode | src/pymodelserve/core/ipc.py:190-194 | an empty line (EOF) gives None; otherwise success iff the line decodes |
| Ipc.NamedPipeClient.constructor | src/pymodelserve/core/ipc.py:158-162 | a new client has the default pipe config for its directory and is not connected |
| Ipc.NamedPipeClient.Connect | src/pymodelserve/core/ipc.py:168-174 | connect opens pipe_in for reading, then pipe_out for writing; a failing open leaves it disconnected |
| Ipc.NamedPipeClient.Send | src/pymodelserve/core/ipc.py:176-183 | send fails iff not connected; otherwise it appends exactly one line to pipe_out |
| Ipc.NamedPipeClient.Receive | src/pymodelserve/core/ipc.py:185-194 | receive fails when not connected; otherwise it consumes one line of pipe_in, with None at end of file |
| Ipc.NamedPipeClient.Close | src/pymodelserve/core/ipc.py:196-212 | close disconnects and clears both pipes |
| Client.Handler | src/pymodelserve/core/client.py:23-47 | the decorated method is callable, carries the tag and behaves like the original |
| Client.HandlerKey | src/pymodelserve/core/client.py:86-105 | only callable, non-underscore attributes register: under their non-empty tag, else as `X` for a `handle_X` name; every such attribute does register |
| Client.DiscoverWellFormed | src/pymodelserve/core/client.py:84-105 | the handler table has each name once |
| Client.DiscoverRegisters | src/pymodelserve/core/client.py:84-105 | a name is registered iff some attribute registers under it |
| Client.DiscoverLast | src/pymodelserve/core/client.py:97-104 | the last attribute rebinds the name it registers under and leaves the others |
| Client.DiscoverBindsLast | src/pymodelserve/core/client.py:84-105 | a registered name is bound to the last attribute, in `dir()` order, that registers under it |
| Client.PrefixedKey | src/pymodelserve/core/client.py:102-104 | an untagged callable `handle_<s>` registers under `<s>` |
| Client.BaseKeys | src/pymodelserve/core/client.py:111-120 | the inherited `handle_message`, `handle_ping` and `handle_shutdown` register as "message", "ping" and "shutdown" |
| Client.BaseHandlers | src/pymodelserve/core/client.py:84-120 | a client with no handlers of its own answers exactly "message", "ping" and "shutdown" |
| Client.BuiltinsRegistered | src/pymodelserve/core/client.py:111-118 | "ping" and "shutdown" are always registered when the inherited methods are present |
| Client.Respond | src/pymodelserve/core/client.py:138-156 | a dict result is returned as is; any other result r becomes `{"result": r}`; a TypeError becomes "Handler argument error: …"; any other exception gives error and traceback |
| Client.Invoke | src/pymodelserve/core/client.py:138-140 | only shutdown (or a nested dispatch of it) clears `_running`; data that is not a mapping is a TypeError |
| Client.HandleMessage | src/pymodelserve/core/client.py:120-156 | an unhashable message type raises; an unknown name answers with the unknown-type error and the handler list, calling nothing; a known one answers with its handler's response; every answer is a dict |
| Client.PingAnswersPong | src/pymodelserve/core/client.py:111-113 | ping answers status "pong" with the handler list and keeps the loop running |
| Client.HandlerListNames | src/pymodelserve/core/client.py:107-109 | the reported handler list holds exactly the registered names |
| Client.ShutdownStops | src/pymodelserve/core/client.py:115-118 | shutdown answers "shutting_down" and clears `_running` |
| Client.UnknownInvokesNothing | src/pymodelserve/core/client.py:130-136 | an unknown name gives "Unknown message type: <name>" and available_handlers, and stops nothing |
| Client.UserHandlerResponse | src/pymodelserve/core/client.py:138-156 | a user handler's response carries "error" iff it raised or itself returned an "error" key, and it never stops the loop |
| Client.ServeValuesAnswers | src/pymodelserve/core/client.py:194-208 | the loop answers request i with response i, one for one, and only the last answered request may have stopped it |
| Client.ServeValuesEnding | src/pymodelserve/core/client.py:194-212 | at end of input every request was answered; after a shutdown the last answer is its response; a crash happens on the first request that was not answered |
| Client.ServeFrames | src/pymodelserve/core/client.py:194-208 | reading the lines of sent requests drives the loop exactly as the requests do |
| Client.ServeTextCrash | src/pymodelserve/core/client.py:194-212 | an undecodable line or an unhandleable request ends the session with no further answer |
| Client.ServeTextAnswer | src/pymodelserve/core/client.py:194-208 | a handled request is answered first, and the session continues with the rest of the input unless it asked to stop |
| Client.ModelClient.constructor | src/pymodelserve/core/client.py:75-82 | a new client has the discovered handlers, no pipes and is not running |
| Client.ModelClient.DiscoverHandlers | src/pymodelserve/core/client.py:84-105 | the loop over attributes builds exactly the discovered handler table |
| Client.ModelClient.GetHandlers | src/pymodelserve/core/client.py:107-109 | every registered name, each once |
| Client.ModelClient.Dispatch | src/pymodelserve/core/client.py:115-156 | returns handle_message's response and clears `_running` exactly when it stops the loop |
| Client.ModelClient.Run | src/pymodelserve/core/client.py:173-223 | no pipe dir or a failed connect/setup exits with status 1 and writes nothing; otherwise what was written is the lines of the session's responses, and the exit status is 1 iff the session crashed; the pipes are closed at the end |
| Client.ModelClient.MessageLoop | src/pymodelserve/core/client.py:194-208 | the loop writes exactly the session's responses and ends as the session does |
| Client.ModelClient.Answer | src/pymodelserve/core/client.py:195-208 | one iteration sends exactly one response and keeps the written text equal to the session so far |
| Manager.GpuStrings | src/pymodelserve/core/manager.py:201 | one decimal string per GPU id, in order |
| Manager.LaunchEnvSpec | src/pymodelserve/core/manager.py:196-201 | the worker's env sets PYMODELSERVE_PIPE_DIR to the pipe dir; CUDA_VISIBLE_DEVICES is set iff gpu_ids is not None, to "" for an empty list and otherwise to a string that splits on "," back into the ids; every other variable is inherited |
| Manager.StartOutcomeSpec | src/pymodelserve/core/manager.py:176-248 | start succeeds iff the venv exists, the spawn succeeds, the pipes connect and the first reply decodes to a dict with status "pong"; every other outcome is a ModelStartupError or the spawn failure |
| Manager.PongFrameStarts | src/pymodelserve/core/manager.py:229-235 | a worker that answers with a "pong" message lets start succeed |
| Manager.LastLines | src/pymodelserve/core/manager.py:325 | the last 20 stderr lines, or all of them when fewer |
| Manager.RequestOutcome | src/pymodelserve/core/manager.py:331-340 | the reply is returned iff it decoded and has no "error" key; an "error" key and an IPCError become ModelRequestError |
| Manager.RStrip | src/pymodelserve/core/manager.py:255-257 | a stderr line loses exactly its trailing whitespace, for the whitespace set of `str.isspace` |
| Manager.ModelManager.constructor | src/pymodelserve/core/manager.py:58-77 | a new manager is stopped, with no venv, no pipes, no process and no stderr |
| Manager.ModelManager.ModelDir | src/pymodelserve/core/manager.py:131-136 | model_dir is the config's directory, or ModelManagerError when unset |
| Manager.ModelManager.IsRunning | src/pymodelserve/core/manager.py:139-141 | `is_running`: started, with a process that has not exited |
| Manager.ModelManager.RunningConnected | src/pymodelserve/core/manager.py:139-141 | a running manager has a connected pipe server; a manager that is not started is never running |
| Manager.ModelManager.Start | src/pymodelserve/core/manager.py:167-248 | start on a started manager changes nothing (no field of the manager, its server or its process is written); no object the manager owned before the call is written, except the manager itself; otherwise the outcome is StartOutcome; a missing venv fails before any pipe or process exists; any failure leaves the manager not started with no process; success leaves a fresh live process with the worker's env and a connected server that sent the ping |
| Manager.ModelManager.Spawn | src/pymodelserve/core/manager.py:191-218 | pipe setup, launch env, spawn and handshake, with outcome LaunchOutcome; the pipe server and process are new objects, and the old ones are not written |
| Manager.ModelManager.Handshake | src/pymodelserve/core/manager.py:220-248 | a connect failure or a reply that is not "pong" cleans up and is a ModelStartupError; success marks the manager started after sending exactly the ping |
| Manager.ModelManager.Cleanup | src/pymodelserve/core/manager.py:293-301 | `_is_started` false, the pipes closed and forgotten, the process forgotten |
| Manager.ModelManager.Stop | src/pymodelserve/core/manager.py:260-291 | stop on a stopped manager changes nothing; otherwise a running worker is first sent the shutdown request (this write is not visible afterwards: closing the pipes discards it, and whether the worker exits in the first wait is a property of the `Process` handle), then the process receives wait(timeout), then terminate and wait(2), then kill, stopping at the first that ends it, and the manager ends stopped with no pipes and no process; the collected stderr is kept |
| Manager.ModelManager.RequestAfterExit | src/pymodelserve/core/manager.py:321-326 | once the worker of a started manager exits on its own, a request fails with "process died" and the last stderr lines, and leaves the pipes alone |
| Manager.ModelManager.Request | src/pymodelserve/core/manager.py:303-340 | not started is ModelNotStartedError; a dead process is ModelRequestError with the last 20 stderr lines; otherwise exactly one request is sent and one line read, and the result is RequestOutcome of that line |
| Manager.ModelManager.Ping | src/pymodelserve/core/manager.py:342-355 | false without any I/O when not running; otherwise true iff the reply is a dict with status "pong" and no "error" key |
| Manager.ModelManager.Restart | src/pymodelserve/core/manager.py:357-361 | restart is stop(5.0) then start: a started worker first gets the full wait, terminate, wait(2), kill escalation and ends dead, and its pipe server is closed; the outcome is StartOutcome, and it ends started iff that succeeded, with a fresh process and server launched as start launches them |
| Manager.ModelManager.CaptureStderr | src/pymodelserve/core/manager.py:250-258 | each stderr line is appended right-stripped |
| Manager.PingHealthySpec | src/pymodelserve/core/manager.py:342-355 | ping is true exactly for a dict reply with status "pong" and no "error" key |
| Discovery.DiscoverModels | src/pymodelserve/discovery/finder.py:20-72 | a base that is not a directory is DiscoveryError; otherwise each found model has its name once and was loaded from a visible, non-hidden directory within max_depth (immediate children only when not recursive) with no config file above it; and conversely the name of every such directory whose config loads is found |
| Discovery.ScanComplete | src/pymodelserve/discovery/finder.py:44-69 | the scan from the base files a model under the name of every reachable directory whose config loads |
| Discovery.ScanDirComplete | src/pymodelserve/discovery/finder.py:44-69 | a scan step finds every reachable loadable directory at or below the one scanned |
| Discovery.ScanChildrenFinds | src/pymodelserve/discovery/finder.py:65-69 | the loop over subdirectories finds a name that the scan of one visible subdirectory finds |
| Discovery.ScanDirGrows | src/pymodelserve/discovery/finder.py:44-69 | a name found earlier survives the rest of the scan |
| Discovery.ScanDirSpec | src/pymodelserve/discovery/finder.py:44-69 | a scan step keeps every model already found (first found wins on duplicates) and adds only discovered ones |
| Discovery.ScanChildrenSpec | src/pymodelserve/discovery/finder.py:66-69 | the loop over subdirectories keeps the models found and adds only discovered ones |
| Discovery.ChildEntered | src/pymodelserve/discovery/finder.py:62-69 | the scan descends only from a directory without a config file into a visible subdirectory |
| Discovery.NamedAfterKeys | src/pymodelserve/discovery/finder.py:53-58 | every discovered model is filed under its own name |
| Discovery.UnclaimedKeys | src/pymodelserve/discovery/finder.py:147-157 | the names register_from_dir keeps are exactly the discovered names not yet registered |
| Discovery.UnclaimedFrom | src/pymodelserve/discovery/finder.py:147-157 | every entry kept is a discovered entry whose name was free |
| Discovery.ScannedNext | src/pymodelserve/discovery/finder.py:150-155 | one iteration registers the model iff its name was free before the loop, and extends the list of registered names by it |
| Discovery.RemoveBoth | src/pymodelserve/discovery/finder.py:172-173 | deleting a name from both dictionaries cuts out the same position, and the key lists stay equal |
| Discovery.ModelRegistry.Paired | src/pymodelserve/discovery/finder.py:90-92 | `_managers` and `_configs` have the same keys |
| Discovery.ModelRegistry.constructor | src/pymodelserve/discovery/finder.py:90-92 | a new registry is empty |
| Discovery.ModelRegistry.Register | src/pymodelserve/discovery/finder.py:94-129 | neither config nor model_dir is ValueError; the key is `name or config.name`; a taken key is ValueError and changes nothing; otherwise a fresh stopped manager is appended to both dictionaries |
| Discovery.ModelRegistry.Add | src/pymodelserve/discovery/finder.py:124-126 | a new name gets a fresh stopped manager, appended to both dictionaries |
| Discovery.ModelRegistry.RegisterFromDir | src/pymodelserve/discovery/finder.py:131-157 | a non-directory is DiscoveryError and changes nothing; otherwise it registers every discovered model whose name is free, in discovery order, and returns those names |
| Discovery.ModelRegistry.RegisterAll | src/pymodelserve/discovery/finder.py:147-157 | the loop registers exactly the discovered entries whose names are free, appending them in order |
| Discovery.ModelRegistry.RegisterStep | src/pymodelserve/discovery/finder.py:150-155 | one iteration of that loop keeps its invariant |
| Discovery.ModelRegistry.RegisterDiscovered | src/pymodelserve/discovery/finder.py:151-155 | registering a discovered config adds it iff its name is free and otherwise skips it |
| Discovery.ModelRegistry.Unregister | src/pymodelserve/discovery/finder.py:159-174 | an unknown name is KeyError and changes nothing; otherwise a running manager is stopped first, with its worker dead after exactly the wait(5.0), terminate, wait(2), kill escalation, and the name is removed from both dictionaries, which keep equal keys; the managers that stay are untouched |
| Discovery.ModelRegistry.Evict | src/pymodelserve/discovery/finder.py:168-173 | the p-th manager is stopped iff it runs, with its worker dead after exactly the wait(5.0), terminate, wait(2), kill escalation, then removed from both dictionaries; the managers that stay are untouched |
| Discovery.ModelRegistry.Drop | src/pymodelserve/discovery/finder.py:172-173 | the same position is deleted from both dictionaries |
| Discovery.ModelRegistry.Get | src/pymodelserve/discovery/finder.py:176-187 | the manager registered under the name, or KeyError iff there is none |
| Discovery.ModelRegistry.GetConfig | src/pymodelserve/discovery/finder.py:189-200 | the config registered under the name, or KeyError iff there is none |
| Discovery.ModelRegistry.Agreement | src/pymodelserve/discovery/finder.py:176-221 | len, in, names, get and get_config agree with the keys of `_managers`; names are distinct; get_config gives the config of the manager get returns |
| Discovery.ModelRegistry.StartModel | src/pymodelserve/discovery/finder.py:223-230 | an unknown name is KeyError; otherwise the named manager is started, with the outcome of its own start; a manager already started is untouched, with its process and pipe server; every other manager is untouched |
| Discovery.ModelRegistry.StopModel | src/pymodelserve/discovery/finder.py:232-239 | an unknown name is KeyError; otherwise the named manager ends stopped, with its worker dead after exactly the wait(timeout), terminate, wait(2), kill escalation when it was started, and is untouched if it was not started; every other manager is untouched |
| Discovery.ModelRegistry.StopAt | src/pymodelserve/discovery/finder.py:239 | stop of the i-th manager: it ends stopped, with its worker dead after exactly the wait(timeout), terminate, wait(2), kill escalation when it was started; the others are untouched |
| Discovery.ModelRegistry.StartAll | src/pymodelserve/discovery/finder.py:241-261 | one result per registered name, in order: None for a manager already started, otherwise its start outcome; a failure does not stop the others; a result is None iff that manager ends started; a manager already started is untouched, with its process and pipe server |
| Discovery.ModelRegistry.StartStep | src/pymodelserve/discovery/finder.py:252-259 | one iteration records the i-th outcome and keeps the loop invariant |
| Discovery.ModelRegistry.StopStep | src/pymodelserve/discovery/finder.py:269-274 | one iteration of stop_all: a running i-th manager ends stopped with its process halted, and the loop invariant is kept |
| Discovery.ModelRegistry.StartEntry | src/pymodelserve/discovery/finder.py:253-259 | the i-th manager is started unless running; a started one is untouched, with its process and pipe server; the others are untouched |
| Discovery.ModelRegistry.StartAt | src/pymodelserve/discovery/finder.py:255 | start of the i-th manager, leaving the others untouched, and the i-th untouched when already started |
| Discovery.ModelRegistry.StopAll | src/pymodelserve/discovery/finder.py:263-274 | every running manager ends stopped, with its worker dead after exactly the wait(timeout), terminate, wait(2), kill escalation, the timeout being the one given; every other manager is untouched, together with its process and pipe server |
| Discovery.ModelRegistry.StopEntry | src/pymodelserve/discovery/finder.py:269-274 | the i-th manager is stopped iff it runs, with its worker dead after exactly the wait(timeout), terminate, wait(2), kill escalation, and is otherwise untouched with its process and pipe server; the others are untouched |
| Discovery.ModelRegistry.Status | src/pymodelserve/discovery/finder.py:276-289 | one row per registered name, in order, holding whether its manager runs, its version and its handler names |
| Health.CheckOne | src/pymodelserve/health/checker.py:108-135 | healthy iff the ping answers true; error None iff healthy, "Ping failed" for a false answer, the exception's text when the ping raises |
| Health.CheckNameKeys | src/pymodelserve/health/checker.py:148-155 | a check touches only its name's record, adds a new name at the end, and keeps every record filed under its own name |
| Health.CheckNameSuccess | src/pymodelserve/health/checker.py:148-159 | a successful check stamps the record, marks it healthy, resets the count to 0 and clears the error, with no callback or restart |
| Health.CheckNameFailure | src/pymodelserve/health/checker.py:148-207 | a failed check stamps the record, counts exactly one more failure and stores the error; on_failure sees the incremented count and is called iff set; a restart is attempted iff auto_restart and count >= max_failures; only a successful restart resets the count and marks healthy, and only it reaches on_restart |
| Health.FailedRestartRetries | src/pymodelserve/health/checker.py:177-207 | after a failed restart, the next failed check attempts the restart again |
| Health.CheckEachNext | src/pymodelserve/health/checker.py:145-178 | checking one more manager is one more check of its name |
| Health.CheckEachKeys | src/pymodelserve/health/checker.py:143-150 | after check_all, the names are the old ones plus those of the monitored models, each record filed under its own name |
| Health.CheckEachStamps | src/pymodelserve/health/checker.py:145-153 | after check_all every monitored model has a record stamped with this check |
| Health.CheckEachUntouched | src/pymodelserve/health/checker.py:143-180 | check_all leaves the records of unmonitored names unchanged |
| Health.ByNameWellFormed | src/pymodelserve/health/checker.py:106 | the managers keyed by name have each name once |
| Health.ByNameKeys | src/pymodelserve/health/checker.py:106 | a name is present iff some manager carries it |
| Health.ByNameLast | src/pymodelserve/health/checker.py:106 | a name is bound to the last manager carrying it |
| Health.HealthChecker.constructor | src/pymodelserve/health/checker.py:88-98 | a new checker keeps its settings, has no records and is not running |
| Health.HealthChecker.Create | src/pymodelserve/health/checker.py:85-89 | ValueError iff neither a registry nor managers is given; otherwise a checker over `managers or []` with no records |
| Health.HealthChecker.GetManagers | src/pymodelserve/health/checker.py:102-106 | the registry's managers under their names when there is a registry, otherwise the list keyed by name |
| Health.HealthChecker.CheckAll | src/pymodelserve/health/checker.py:137-180 | the loop leaves exactly the records and callback/restart events of checking every monitored manager in order, and returns a new dictionary holding the checker's records |
| Health.HealthChecker.CheckStep | src/pymodelserve/health/checker.py:145-178 | one iteration extends the checked prefix by one manager |
| Health.HealthChecker.CheckModel | src/pymodelserve/health/checker.py:146-178 | one model's check leaves its new record under its name and appends its events |
| Health.HealthChecker.Record | src/pymodelserve/health/checker.py:149-162 | a new name first gets a fresh healthy record; the record is then stamped, and its count is reset or incremented with the error stored |
| Health.HealthChecker.RestartModel | src/pymodelserve/health/checker.py:182-207 | the restart is attempted; on success the stored record gets count 0 and healthy, and on_restart is told if set; on failure nothing else changes |
| Health.HealthChecker.StatusOf | src/pymodelserve/health/checker.py:257-269 | the stored record, or an unhealthy "Not monitored" record that is not stored |
| Health.HealthChecker.Statuses | src/pymodelserve/health/checker.py:270 | `get_status()`: every stored record under its name, each equal to what `get_status(name)` returns |
| Health.HealthChecker.IsRunning | src/pymodelserve/health/checker.py:272-275 | `is_running`: the running flag that start sets and stop clears |
| Health.HealthChecker.Start | src/pymodelserve/health/checker.py:220-238 | afterwards the checker is running; a second start only warns |
| Health.HealthChecker.Stop | src/pymodelserve/health/checker.py:240-255 | afterwards the checker is not running; stopping a stopped checker does nothing |
| DjangoRegistry.Globals.constructor | src/pymodelserve/contrib/django/registry.py:11-12 | no global registry at import |
| DjangoRegistry.Globals.GetRegistry | src/pymodelserve/contrib/django/registry.py:15-30 | the first call creates a fresh empty registry; later calls return the same one unchanged |
| DjangoRegistry.Globals.GetModel | src/pymodelserve/contrib/django/registry.py:33-47 | `get_registry().get(name)`: always KeyError when no registry existed before the call |
| DjangoRegistry.Globals.ShutdownModels | src/pymodelserve/contrib/django/registry.py:50-59 | with a registry, every running model is stopped, with its worker dead after exactly the wait(5.0), terminate, wait(2), kill escalation, every other model is untouched together with its process and pipe server, and the global is cleared; without one nothing changes |
| DjangoRegistry.Globals.ShutdownThenGet | src/pymodelserve/contrib/django/registry.py:15-59 | after shutdown_models, get_registry yields a fresh, empty registry |

## Left out

- Threads and timing are left out. This covers the health checker's `_monitoring_loop` thread, `Event.wait`, `join`, the check interval and timeout, the manager's stderr reader thread, `time.time()`, and the floating-point `response_time_ms`. The check time is a natural-number tick passed in by the caller in place of `datetime.now()`.
- Operating-system processes are a `Process` handle, and pipes are text buffers. `Popen`, `os.mkfifo`, blocking `open`/`readline` and `tempfile` are not modelled: what they do is passed in as `Launch` and `PeerOpen` values.
- JSON, YAML and TOML encoding and parsing, and pydantic's structural validation, are function parameters. The RFC 8259 facts the pipe protocol relies on are the `LineSafe` hypothesis.
- venv.py (venv creation and pip install) is not part of this model. `setup_venv` is reduced to whether it raises and whether the venv exists afterwards.
- The CLI and the Django views, settings, app config and management command are not part of this model. They wrap the core in console output, HTTP responses and settings lookups.
- Logging, and `__enter__`/`__exit__`/`__repr__`, are left out. They add no logic beyond calls to start, stop and close.
- JSON object key order is not modelled, because documents are maps. Handler lists and dictionaries the core builds keep their order.
- Only the `auto_setup_venv` keyword of `ModelManager` is modelled. Other manager keyword arguments passed through the registry are not, and neither are the `timeout` arguments of `start` and `ModelRegistry.start`.
- `ModelManager.from_yaml`, `from_dir` and `from_config` are not modelled separately. They are `load_config` or `load_config_from_dir` followed by the constructor.
- The `_ipc is None` branch of `request` is not modelled. The manager invariant makes it unreachable: a started manager always has a connected server.
- Handlers' own side effects, and the `setup`/`teardown` hooks, are left out. `setup` is reduced to whether it raises; `teardown` errors are swallowed by the source.
- Exceptions raised by the on_failure and on_restart callbacks are swallowed by the source, so each call is only recorded as an `Event`.
- Health.HealthChecker.CheckModel: records are values, so Python's aliasing of the record passed to `on_failure` is not modelled. The event holds the record as it was at the call.
- Health.HealthChecker.CheckAll: what `ping()` and `restart()` do to the manager objects is left to the manager model. Here each manager's behaviour during a check is a `Probe` outcome. The records that `check_all` and `get_status` return are the checker's live `HealthStatus` objects (`.copy()` is shallow, and `get_status(name)` returns the stored record itself), so later checks and any writes by the caller show through; records here are values, which does not capture this sharing.
- Client.HandleMessage: the texts of Python's own TypeError messages are approximations.
- Schema.ValidateNameSpec: `str.isalnum` is modelled for ASCII letters and digits only. Unicode letters and digits that Python also accepts are rejected by the model.
- JSON floats are not part of `Value`: documents hold null, booleans, integers, strings, lists and objects only. No float-valued field takes part in the logic modelled.
- Ipc.ReadLine: a line ends only at "\n". The source opens the FIFOs in text mode, whose universal newlines also end a line at "\r" and "\r\n". The two agree on every frame `json.dumps` writes, which holds no raw carriage return, but not on arbitrary text a peer might write.
- Discovery.DiscoverModels: directory listing (`iterdir`) and the existence and is-directory tests are assumed never to fail. In the source a PermissionError or other OSError from them escapes `discover_models`, and so `register_from_dir`, because only `load_config` sits inside the try; the model has no such error.
- Paths.JoinText: POSIX's special meaning of exactly two leading slashes is not modelled; "//x" is treated as "/x".
- Ipc.NamedPipeServer.Close: the source swallows errors from closing files and removing the temp dir. The model has no such errors.
