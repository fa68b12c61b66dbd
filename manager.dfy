/** The manager side of one model: `ModelManager` prepares the virtual environment, spawns
    the worker with its launch environment, connects the pipes, checks the worker with a
    ping, forwards requests, and shuts the worker down in stages. The operating system
    process is a `Process` handle; what the environment does during a start is a `Launch`. */
module Manager {
  import opened Values
  import opened Paths
  import opened Schema
  import opened Ipc
  import Text

  /** What `stop` did to a process, in order. */
  datatype Signal = Waited(timeout: real) | Terminated | Killed

  /** A spawned worker process. */
  class Process {
    const moduleName: string
    const env: map<string, string>
    /** Whether the worker exits within the first wait of `stop`. */
    const exitsPromptly: bool
    /** Whether `terminate` ends it. */
    const exitsOnTerminate: bool
    var alive: bool
    var log: seq<Signal>

    constructor(moduleName: string, env: map<string, string>, exitsPromptly: bool, exitsOnTerminate: bool)
      ensures this.moduleName == moduleName && this.env == env
      ensures this.exitsPromptly == exitsPromptly && this.exitsOnTerminate == exitsOnTerminate
      ensures alive && log == []
    {
      this.moduleName := moduleName;
      this.env := env;
      this.exitsPromptly := exitsPromptly;
      this.exitsOnTerminate := exitsOnTerminate;
      alive := true;
      log := [];
    }

    /** `wait(timeout)`: whether the process has exited when the wait ends. */
    method Wait(timeout: real) returns (exited: bool)
      modifies this
      ensures exited == (!old(alive) || exitsPromptly) && alive == !exited
      ensures log == old(log) + [Waited(timeout)]
    {
      exited := !alive || exitsPromptly;
      alive := !exited;
      log := log + [Waited(timeout)];
    }

    method Terminate()
      modifies this
      ensures alive == (old(alive) && !exitsOnTerminate)
      ensures log == old(log) + [Terminated]
    {
      alive := alive && !exitsOnTerminate;
      log := log + [Terminated];
    }

    method Kill()
      modifies this
      ensures !alive && log == old(log) + [Killed]
    {
      alive := false;
      log := log + [Killed];
    }

    /** The worker exits on its own (it finished or crashed). */
    method Exit()
      modifies this`alive
      ensures !alive
    {
      alive := false;
    }
  }

  /** `",".join(str(i) for i in gpu_ids)` without the commas: one decimal per id. */
  function GpuStrings(ids: seq<int>): (r: seq<string>)
    ensures |r| == |ids| && forall i :: 0 <= i < |ids| ==> r[i] == Text.IntToString(ids[i])
  {
    seq(|ids|, i requires 0 <= i < |ids| => Text.IntToString(ids[i]))
  }

  const PipeDirVar := "PYMODELSERVE_PIPE_DIR"
  const GpuVar := "CUDA_VISIBLE_DEVICES"

  /** The worker's environment: a copy of the manager's with the pipe directory and,
      when GPU ids are configured, the visible devices. */
  function LaunchEnv(osEnv: map<string, string>, pipeDir: Path, gpuIds: Option<seq<int>>): map<string, string> {
    var env := osEnv[PipeDirVar := ToString(pipeDir)];
    if gpuIds.Some? then env[GpuVar := Text.Join(',', GpuStrings(gpuIds.value))] else env
  }

  /** The worker learns the pipe directory; `CUDA_VISIBLE_DEVICES` is set exactly when GPU
      ids are configured, to `""` for none and otherwise to a list that splits back into
      the ids; every other variable is inherited. */
  lemma LaunchEnvSpec(osEnv: map<string, string>, pipeDir: Path, gpuIds: Option<seq<int>>)
    ensures var env := LaunchEnv(osEnv, pipeDir, gpuIds);
      && env[PipeDirVar] == ToString(pipeDir)
      && (gpuIds.Some? ==> GpuVar in env)
      && (gpuIds.None? ==> (GpuVar in env <==> GpuVar in osEnv) && (GpuVar in osEnv ==> env[GpuVar] == osEnv[GpuVar]))
      && (gpuIds == Some([]) ==> env[GpuVar] == "")
      && (gpuIds.Some? && gpuIds.value != [] ==> Text.Split(env[GpuVar], ',') == GpuStrings(gpuIds.value))
      && (forall k :: k in osEnv && k != PipeDirVar && k != GpuVar ==> k in env && env[k] == osEnv[k])
      && (forall k :: k in env ==> k in osEnv || k == PipeDirVar || k == GpuVar)
  {
    if gpuIds.Some? && gpuIds.value != [] {
      var parts := GpuStrings(gpuIds.value);
      forall i | 0 <= i < |parts| ensures ',' !in parts[i] {
        Text.IntToStringHasNoComma(gpuIds.value[i]);
      }
      Text.SplitJoin(',', parts);
    }
  }

  /** The exceptions `ModelManager` lets out. Those raised by the manager itself are
      `ModelManagerError`s; `VenvFailure`, `SpawnFailure` and `Unwrapped` stand for
      exceptions of other kinds that pass through unchanged. */
  datatype ManagerError =
    | Misconfigured
    | VenvFailure
    | StartupError(startCause: StartupCause)
    | SpawnFailure
    | NotStarted
    | RequestError(requestCause: RequestCause)
    | Unwrapped

  datatype StartupCause = VenvMissing | ConnectFailed | PingFailed

  datatype RequestCause = ProcessDied(lastStderr: seq<string>) | HandlerError(error: Value) | IpcFailure

  predicate IsModelManagerError(e: ManagerError) {
    e.Misconfigured? || e.StartupError? || e.NotStarted? || e.RequestError?
  }

  /** What the environment does while `start` runs. */
  datatype Launch = Launch(
    /** `setup_venv` raises (creating the environment or installing requirements failed). */
    venvSetupFails: bool,
    /** `_venv.exists` once setup is done. */
    venvExists: bool,
    /** The directory `tempfile.mkdtemp` creates for the pipes. */
    pipeDir: Path,
    osEnv: map<string, string>,
    /** `Popen` raises. */
    spawnFails: bool,
    /** How the worker opens its pipe ends, and everything it then writes to `pipe_out`. */
    peer: PeerOpen,
    codec: Codec,
    exitsPromptly: bool,
    exitsOnTerminate: bool)

  /** `response.get("status") == "pong"` for a reply that is a dictionary. */
  predicate IsPong(v: Value) {
    v.Object? && "status" in v.fields && v.fields["status"] == Str("pong")
  }

  /** Whether the worker's first line answers the ping. */
  predicate AnswersPing(c: Codec, output: string) {
    var reply := ServerDecode(c, ReadLine(output).0);
    reply.Ok? && IsPong(reply.value)
  }

  /** The result of `start` on a manager that is not started. */
  function StartOutcome(config: ModelConfig, autoSetupVenv: bool, hadVenv: bool, launch: Launch): Option<ManagerError> {
    if (autoSetupVenv || !hadVenv) && config.modelDir.None? then Some(Misconfigured)
    else if autoSetupVenv && launch.venvSetupFails then Some(VenvFailure)
    else if !launch.venvExists then Some(StartupError(VenvMissing))
    else LaunchOutcome(launch)
  }

  /** The result of the part of `start` that follows the virtual environment check. */
  function LaunchOutcome(launch: Launch): Option<ManagerError> {
    if launch.spawnFails then Some(SpawnFailure)
    else if !launch.peer.Opened? then Some(StartupError(ConnectFailed))
    else if !AnswersPing(launch.codec, launch.peer.output) then Some(StartupError(PingFailed))
    else None
  }

  /** A start succeeds exactly when the environment exists, the worker spawns, opens its
      pipes and answers the ping with "pong"; a worker whose first line is not a decodable
      dictionary with status "pong" is a startup error, never a success. */
  lemma StartOutcomeSpec(config: ModelConfig, autoSetupVenv: bool, hadVenv: bool, launch: Launch)
    requires config.modelDir.Some? && !(autoSetupVenv && launch.venvSetupFails)
    ensures StartOutcome(config, autoSetupVenv, hadVenv, launch).None? <==>
              launch.venvExists && !launch.spawnFails && launch.peer.Opened? &&
              (var line := ReadLine(launch.peer.output).0;
               line != "" && launch.codec.decode(line).Some? && IsPong(launch.codec.decode(line).value))
    ensures StartOutcome(config, autoSetupVenv, hadVenv, launch).Some? ==>
              StartOutcome(config, autoSetupVenv, hadVenv, launch).value in
                {StartupError(VenvMissing), SpawnFailure, StartupError(ConnectFailed), StartupError(PingFailed)}
  {
  }

  /** A worker that answers the ping with a frame holding status "pong" lets `start` succeed. */
  lemma PongFrameStarts(config: ModelConfig, autoSetupVenv: bool, hadVenv: bool, launch: Launch, reply: Value, later: string)
    requires config.modelDir.Some? && !(autoSetupVenv && launch.venvSetupFails)
    requires launch.venvExists && !launch.spawnFails && LineSafe(launch.codec)
    requires launch.peer == Opened(Frame(launch.codec, reply) + later) && IsPong(reply)
    ensures StartOutcome(config, autoSetupVenv, hadVenv, launch).None?
  {
    ReadLineFrame(launch.codec, reply, later);
  }

  /** `_stderr_output[-20:]`. */
  function LastLines(lines: seq<string>): (r: seq<string>)
    ensures |r| == if |lines| < 20 then |lines| else 20
    ensures r == lines[|lines| - |r|..]
  {
    if |lines| <= 20 then lines else lines[|lines| - 20..]
  }

  /** What `request` makes of what the server received. */
  function RequestOutcome(reply: Result<Value, IpcError>): (r: Result<Value, ManagerError>)
    ensures r.Ok? <==> reply.Ok? && PyContains(reply.value, "error") == Some(false)
    ensures r.Ok? ==> r.value == reply.value
    ensures reply.Err? && IsIpcError(reply.error) ==> r == Err(RequestError(IpcFailure))
    ensures reply.Ok? && reply.value.Object? && "error" in reply.value.fields ==>
              r == Err(RequestError(HandlerError(reply.value.fields["error"])))
    ensures r.Err? && r.error.RequestError? ==> r.error.requestCause != IpcFailure ==> reply.Ok? && reply.value.Object?
  {
    match reply
    case Err(e) => if IsIpcError(e) then Err(RequestError(IpcFailure)) else Err(Unwrapped)
    case Ok(v) =>
      match PyContains(v, "error")
      case None => Err(Unwrapped)
      case Some(has) =>
        if !has then Ok(v)
        else if v.Object? then Err(RequestError(HandlerError(v.fields["error"])))
        else Err(Unwrapped)
  }

  /** `str.isspace()` of one character: the ASCII whitespace, the information separators
      U+001C..U+001F, and the Unicode line, paragraph and space separators. */
  predicate IsSpace(c: char) {
    || ('\U{9}' <= c <= '\U{D}') || ('\U{1C}' <= c <= '\U{20}')
    || c == '\U{85}' || c == '\U{A0}' || c == '\U{1680}'
    || ('\U{2000}' <= c <= '\U{200A}') || c == '\U{2028}' || c == '\U{2029}'
    || c == '\U{202F}' || c == '\U{205F}' || c == '\U{3000}'
  }

  /** `line.rstrip()`. */
  function RStrip(line: string): (r: string)
    ensures |r| <= |line| && r == line[..|r|]
    ensures r == "" || !IsSpace(r[|r| - 1])
    ensures forall i :: |r| <= i < |line| ==> IsSpace(line[i])
  {
    if line == "" || !IsSpace(line[|line| - 1]) then line else RStrip(line[..|line| - 1])
  }

  class ModelManager {
    const config: ModelConfig
    const autoSetupVenv: bool
    /** Whether `_venv` is set. */
    var hasVenv: bool
    var ipc: NamedPipeServer?
    var process: Process?
    var isStarted: bool
    var stderrOutput: seq<string>
    ghost var Repr: set<object>

    /** The manager owns its pipe server and its process handle. */
    ghost predicate Owned()
      reads this, Repr
    {
      && this in Repr
      && (ipc != null ==> ipc in Repr && ipc.Valid())
      && (process != null ==> process in Repr)
    }

    /** A started manager has a connected pipe server and a process; a stopped one has no
        process and no connected server. */
    ghost predicate Valid()
      reads this, Repr
    {
      && Owned()
      && (isStarted <==> ipc != null && ipc.isConnected)
      && (isStarted <==> process != null)
    }

    constructor(config: ModelConfig, autoSetupVenv: bool)
      ensures Valid() && fresh(Repr)
      ensures this.config == config && this.autoSetupVenv == autoSetupVenv
      ensures !hasVenv && ipc == null && process == null && !isStarted && stderrOutput == []
    {
      this.config := config;
      this.autoSetupVenv := autoSetupVenv;
      hasVenv := false;
      ipc := null;
      process := null;
      isStarted := false;
      stderrOutput := [];
      Repr := {this};
    }

    /** The `model_dir` property. */
    function ModelDir(): (r: Result<Path, ManagerError>)
      ensures r.Ok? <==> config.modelDir.Some?
      ensures r.Ok? ==> Some(r.value) == config.modelDir
      ensures r.Err? ==> r.error == Misconfigured
    {
      if config.modelDir.None? then Err(Misconfigured) else Ok(config.modelDir.value)
    }

    /** The `is_running` property: started and the process has not exited. */
    predicate IsRunning()
      reads this, process
    {
      isStarted && process != null && process.alive
    }

    /** A running manager has a connected pipe server to send requests on. */
    lemma RunningConnected()
      requires Valid()
      ensures IsRunning() ==> ipc != null && ipc.isConnected
      ensures !isStarted ==> !IsRunning()
    {
    }

    /** `start`. */
    method Start(launch: Launch) returns (err: Option<ManagerError>)
      requires Valid()
      modifies Repr
      ensures Valid() && fresh(Repr - old(Repr))
      ensures old(isStarted) ==> err.None? && isStarted && ipc == old(ipc) && process == old(process)
      ensures old(isStarted) ==> Repr == old(Repr) && unchanged(Repr)
      ensures !old(isStarted) ==> err == StartOutcome(config, autoSetupVenv, old(hasVenv), launch)
      ensures err.Some? ==> !isStarted && process == null
      ensures err.Some? && (err.value.Misconfigured? || err.value == VenvFailure || err.value == StartupError(VenvMissing)) ==>
                ipc == old(ipc)
      ensures !old(isStarted) && err.Some? && !(err.value.Misconfigured? || err.value == VenvFailure || err.value == StartupError(VenvMissing)) ==>
                LaunchEffect(launch, err)
      ensures err.None? && !old(isStarted) ==> LaunchEffect(launch, err) && fresh(ipc) && fresh(process)
      ensures err == Some(SpawnFailure) ==> fresh(ipc)
      ensures forall o :: o in old(Repr) && o != this ==> unchanged(o)
    {
      if isStarted {
        return None;
      }
      if autoSetupVenv {
        if config.modelDir.None? {
          return Some(Misconfigured);
        }
        hasVenv := true;
        if launch.venvSetupFails {
          return Some(VenvFailure);
        }
      } else if !hasVenv {
        if config.modelDir.None? {
          return Some(Misconfigured);
        }
        hasVenv := true;
      }
      if !launch.venvExists {
        return Some(StartupError(VenvMissing));
      }
      err := Spawn(launch);
    }

    /** What the spawning part of `start` leaves behind: after a spawn failure, a pipe
        server that is set up but not connected; after a connect or ping failure, nothing;
        after a success, a connected server that sent the ping and a fresh live process
        launched with the worker's environment. */
    ghost predicate LaunchEffect(launch: Launch, err: Option<ManagerError>)
      reads this, ipc, process
    {
      && (err == Some(SpawnFailure) ==>
            ipc != null && !ipc.isConnected && ipc.config == Some(DefaultPipeConfig(launch.pipeDir)))
      && (err.Some? && err.value.StartupError? ==> ipc == null)
      && (err.None? ==>
            && isStarted && ipc != null && process != null && process.alive
            && process.moduleName == config.client.moduleName
            && process.env == LaunchEnv(launch.osEnv, launch.pipeDir, config.resources.gpuIds)
            && ipc.config == Some(DefaultPipeConfig(launch.pipeDir))
            && ipc.pipeIn == Some(Frame(launch.codec, RequestMessage("ping", Some(map[]))))
            && stderrOutput == [])
    }

    /** The part of `start` from creating the pipe server to the ping. */
    method Spawn(launch: Launch) returns (err: Option<ManagerError>)
      requires Valid() && !isStarted
      modifies Repr
      ensures Valid() && fresh(Repr - old(Repr))
      ensures err == LaunchOutcome(launch)
      ensures err.Some? ==> !isStarted && process == null
      ensures LaunchEffect(launch, err)
      ensures err == Some(SpawnFailure) || err.None? ==> fresh(ipc)
      ensures err.None? ==> fresh(process)
      ensures hasVenv == old(hasVenv)
      ensures forall o :: o in old(Repr) && o != this ==> unchanged(o)
    {
      var server := new NamedPipeServer(launch.codec, None);
      ipc := server;
      Repr := Repr + {server};
      var pipeConfig := server.Setup(launch.pipeDir);
      var env := LaunchEnv(launch.osEnv, pipeConfig.pipeDir, config.resources.gpuIds);
      if launch.spawnFails {
        return Some(SpawnFailure);
      }
      var p := new Process(config.client.moduleName, env, launch.exitsPromptly, launch.exitsOnTerminate);
      process := p;
      Repr := Repr + {p};
      stderrOutput := [];
      err := Handshake(launch);
    }

    /** The end of `start`: connect the pipes, then ping; any failure cleans up. */
    method Handshake(launch: Launch) returns (err: Option<ManagerError>)
      requires Owned() && !isStarted && ipc != null && process != null
      requires !ipc.isConnected && ipc.config.Some? && ipc.codec == launch.codec
      modifies this, ipc
      ensures Valid() && Repr == old(Repr)
      ensures err == (if !launch.peer.Opened? then Some(StartupError(ConnectFailed))
                      else if !AnswersPing(launch.codec, launch.peer.output) then Some(StartupError(PingFailed))
                      else None)
      ensures err.Some? ==> !isStarted && ipc == null && process == null
      ensures err.None? ==> isStarted && ipc == old(ipc) && process == old(process) && ipc.config == old(ipc.config)
      ensures err.None? ==> ipc.pipeIn == Some(Frame(launch.codec, RequestMessage("ping", Some(map[]))))
      ensures hasVenv == old(hasVenv) && stderrOutput == old(stderrOutput)
    {
      var server := ipc;
      var connectErr := server.Connect(launch.peer);
      if connectErr.Some? {
        Cleanup();
        return Some(StartupError(ConnectFailed));
      }
      isStarted := true;
      var reply := server.Request("ping", Some(map[]));
      assert "" + Frame(launch.codec, RequestMessage("ping", Some(map[]))) == Frame(launch.codec, RequestMessage("ping", Some(map[])));
      if reply.Err? || !IsPong(reply.value) {
        Cleanup();
        return Some(StartupError(PingFailed));
      }
      err := None;
    }

    /** `_cleanup`: forgets the process (without ending it) and closes the pipes. */
    method Cleanup()
      requires Owned()
      modifies this, ipc
      ensures Valid() && Repr == old(Repr)
      ensures !isStarted && ipc == null && process == null
      ensures old(ipc) != null ==> !old(ipc).isConnected && old(ipc).config.None? && old(ipc).tempDir.None?
      ensures hasVenv == old(hasVenv) && stderrOutput == old(stderrOutput)
    {
      isStarted := false;
      if ipc != null {
        ipc.Close();
        ipc := null;
      }
      process := null;
    }

    /** The signals `stop` sends to a process that is alive or not, in order. */
    static function Escalation(alive: bool, p: Process, timeout: real): seq<Signal>
      reads p
    {
      if !alive || p.exitsPromptly then [Waited(timeout)]
      else if p.exitsOnTerminate then [Waited(timeout), Terminated, Waited(2.0)]
      else [Waited(timeout), Terminated, Waited(2.0), Killed]
    }

    /** What `stop` leaves of a process that was alive or not and had written `log`: it
        is dead, and it received exactly the escalation's signals. */
    static ghost predicate Halted(p: Process, alive: bool, log: seq<Signal>, timeout: real)
      reads p
    {
      !p.alive && p.log == log + Escalation(alive, p, timeout)
    }

    /** `stop`: asks a running worker to shut down, waits, terminates, waits two seconds,
        kills; then cleans up. A manager that is not started is left alone. */
    method Stop(timeout: real)
      requires Valid()
      modifies Repr
      ensures Valid() && Repr == old(Repr)
      ensures !old(isStarted) ==> isStarted == old(isStarted) && ipc == old(ipc) && process == old(process)
      ensures !old(isStarted) ==> unchanged(Repr)
      ensures old(isStarted) ==> !isStarted && ipc == null && process == null
      ensures old(isStarted) ==> !old(ipc).isConnected && old(ipc).config.None?
      ensures old(isStarted) ==> Halted(old(process), old(process.alive), old(process.log), timeout)
      ensures hasVenv == old(hasVenv) && stderrOutput == old(stderrOutput)
    {
      if !isStarted {
        return;
      }
      var p := process;
      if ipc != null && IsRunning() {
        var ignored := ipc.Request("shutdown", Some(map[]));
      }
      var exited := p.Wait(timeout);
      if !exited {
        p.Terminate();
        exited := p.Wait(2.0);
        if !exited {
          p.Kill();
        }
      }
      Cleanup();
    }

    /** `request`. */
    method Request(handler: string, data: Option<map<string, Value>>) returns (r: Result<Value, ManagerError>)
      requires Valid()
      modifies ipc
      ensures Valid()
      ensures !isStarted ==> r == Err(NotStarted) && (ipc != null ==> unchanged(ipc))
      ensures isStarted && !process.alive ==> r == Err(RequestError(ProcessDied(LastLines(stderrOutput)))) && unchanged(ipc)
      ensures IsRunning() ==>
                var sent := RequestMessage(handler, Some(if data.Some? then data.value else map[]));
                && ipc.pipeIn == Some(old(ipc.pipeIn).value + Frame(ipc.codec, sent))
                && ipc.pipeOut == Some(ReadLine(old(ipc.pipeOut).value).1)
                && r == RequestOutcome(ServerDecode(ipc.codec, ReadLine(old(ipc.pipeOut).value).0))
    {
      if !isStarted {
        return Err(NotStarted);
      }
      if !IsRunning() {
        return Err(RequestError(ProcessDied(LastLines(stderrOutput))));
      }
      var reply := ipc.Request(handler, Some(if data.Some? then data.value else map[]));
      r := RequestOutcome(reply);
    }

    /** The worker exits on its own while the manager is started: the next request
        fails with the last lines of its stderr and leaves the pipes alone. */
    method RequestAfterExit(handler: string, data: Option<map<string, Value>>) returns (r: Result<Value, ManagerError>)
      requires Valid() && isStarted
      modifies Repr
      ensures Valid() && Repr == old(Repr) && isStarted && !IsRunning()
      ensures r == Err(RequestError(ProcessDied(LastLines(stderrOutput))))
      ensures unchanged(ipc) && stderrOutput == old(stderrOutput)
    {
      process.Exit();
      r := Request(handler, data);
    }

    /** `ping`: never raises; true exactly when the worker is running and answers with
        a dictionary whose status is "pong". */
    method Ping() returns (healthy: bool)
      requires Valid()
      modifies ipc
      ensures Valid()
      ensures !old(IsRunning()) ==> !healthy && (ipc != null ==> unchanged(ipc))
      ensures old(IsRunning()) ==>
                healthy == PingHealthy(ServerDecode(ipc.codec, ReadLine(old(ipc.pipeOut).value).0))
    {
      if !IsRunning() {
        return false;
      }
      var r := Request("ping", Some(map[]));
      healthy := r.Ok? && IsPong(r.value);
    }

    /** `restart`: `stop` with the default timeout, then `start`. A started worker goes
        through the whole shutdown escalation and its pipes are closed before the new
        worker is launched. */
    method Restart(launch: Launch) returns (err: Option<ManagerError>)
      requires Valid()
      modifies Repr
      ensures Valid() && fresh(Repr - old(Repr))
      ensures err == StartOutcome(config, autoSetupVenv, old(hasVenv), launch)
      ensures err.None? <==> isStarted
      ensures old(isStarted) ==> Halted(old(process), old(process.alive), old(process.log), 5.0)
      ensures old(isStarted) ==> !old(ipc).isConnected && old(ipc).config.None?
      ensures err.None? ==> LaunchEffect(launch, err) && fresh(ipc) && fresh(process)
    {
      Stop(5.0);
      err := Start(launch);
    }

    /** One line the stderr reader collects, without trailing whitespace. */
    method CaptureStderr(line: string)
      modifies this`stderrOutput
      ensures stderrOutput == old(stderrOutput) + [RStrip(line)]
    {
      stderrOutput := stderrOutput + [RStrip(line)];
    }
  }

  /** A ping reply counts as healthy when it is a dictionary with status "pong" and no
      "error" key: a reply carrying "error" fails the request before its status is read. */
  predicate PingHealthy(reply: Result<Value, IpcError>) {
    RequestOutcome(reply).Ok? && IsPong(RequestOutcome(reply).value)
  }

  /** `ping` is true exactly for a "pong" dictionary without an "error" key. */
  lemma PingHealthySpec(reply: Result<Value, IpcError>)
    ensures PingHealthy(reply) <==>
              reply.Ok? && reply.value.Object? && "error" !in reply.value.fields &&
              "status" in reply.value.fields && reply.value.fields["status"] == Str("pong")
  {
  }
}
