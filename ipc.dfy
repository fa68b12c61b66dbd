/** The named-pipe channel between the manager (server) and the worker (client).
    Messages are JSON documents, one per line. The server writes to `pipe_in` and
    reads `pipe_out`; the client does the opposite. A write end is modelled by the
    text written so far, a read end by the text the peer wrote that is still unread;
    `json.dumps`/`json.loads` are the `Codec` the endpoint is built with. */
module Ipc {
  import opened Values
  import opened Paths

  datatype PipeConfig = PipeConfig(pipeDir: Path, pipeInName: string, pipeOutName: string)

  const DefaultPipeInName := "pipe_in"
  const DefaultPipeOutName := "pipe_out"

  function DefaultPipeConfig(dir: Path): PipeConfig {
    PipeConfig(dir, DefaultPipeInName, DefaultPipeOutName)
  }

  /** `pipe_in_path`: `pipe_dir / pipe_in_name`. */
  function PipeInPath(c: PipeConfig): (p: Path)
    ensures Parent(p) == c.pipeDir && Name(p) == c.pipeInName
  {
    Join(c.pipeDir, c.pipeInName)
  }

  /** `pipe_out_path`: `pipe_dir / pipe_out_name`. */
  function PipeOutPath(c: PipeConfig): (p: Path)
    ensures Parent(p) == c.pipeDir && Name(p) == c.pipeOutName
  {
    Join(c.pipeDir, c.pipeOutName)
  }

  /** The two pipes are distinct files of the same directory exactly when their names
      differ, as they do by default. */
  lemma PipePathsDistinct(c: PipeConfig)
    ensures PipeInPath(c) != PipeOutPath(c) <==> c.pipeInName != c.pipeOutName
    ensures PipeInPath(DefaultPipeConfig(c.pipeDir)) != PipeOutPath(DefaultPipeConfig(c.pipeDir))
  {
    if PipeInPath(c) == PipeOutPath(c) {
      assert Name(PipeInPath(c)) == Name(PipeOutPath(c));
    }
    var d := DefaultPipeConfig(c.pipeDir);
    assert Name(PipeInPath(d)) == "pipe_in" != "pipe_out" == Name(PipeOutPath(d));
  }

  /** `json.dumps` and `json.loads`. */
  datatype Codec = Codec(encode: Value -> string, decode: string -> Option<Value>)

  /** What section 7 of RFC 8259 and `json.dumps` without indentation guarantee: an
      encoded document holds no raw line feed, and decoding the encoded line (with its
      line feed) gives the document back. */
  ghost predicate LineSafe(c: Codec) {
    forall v :: '\n' !in c.encode(v) && c.decode(c.encode(v) + "\n") == Some(v)
  }

  /** One message on the wire: the encoded document and a single newline. */
  function Frame(c: Codec, m: Value): string {
    c.encode(m) + "\n"
  }

  function Frames(c: Codec, ms: seq<Value>): string {
    if ms == [] then "" else Frame(c, ms[0]) + Frames(c, ms[1..])
  }

  /** `readline()` on a stream holding `data` and then end of file: everything up to and
      including the first newline, or all of `data` when it has none; `""` only at EOF. */
  function ReadLine(data: string): (r: (string, string))
    ensures r.0 + r.1 == data
    ensures r.0 == "" <==> data == ""
    ensures forall i :: 0 <= i < |r.0| - 1 ==> r.0[i] != '\n'
    ensures r.0 != "" && r.0[|r.0| - 1] != '\n' ==> r.1 == ""
  {
    if data == [] then ("", "")
    else if data[0] == '\n' then ("\n", data[1..])
    else
      var (line, rest) := ReadLine(data[1..]);
      ([data[0]] + line, rest)
  }

  /** The documents a reader decodes, line after line, until end of file;
      `None` marks a line `json.loads` rejects. */
  function DecodeAll(c: Codec, data: string): seq<Option<Value>>
    decreases |data|
  {
    if data == [] then []
    else
      var (line, rest) := ReadLine(data);
      [c.decode(line)] + DecodeAll(c, rest)
  }

  /** Reading a line from a stream that starts with a frame yields exactly that frame. */
  lemma {:induction false} ReadLineFrame(c: Codec, m: Value, rest: string)
    requires LineSafe(c)
    ensures ReadLine(Frame(c, m) + rest) == (Frame(c, m), rest)
  {
    var e := c.encode(m);
    assert '\n' !in e;
    ReadLineNoNewline(e, rest);
  }

  lemma {:induction false} ReadLineNoNewline(e: string, rest: string)
    requires '\n' !in e
    ensures ReadLine(e + "\n" + rest) == (e + "\n", rest)
  {
    if e == [] {
      assert e + "\n" + rest == "\n" + rest;
    } else {
      assert (e + "\n" + rest)[1..] == e[1..] + "\n" + rest;
      ReadLineNoNewline(e[1..], rest);
      assert [e[0]] + (e[1..] + "\n") == e + "\n";
    }
  }

  /** Messages sent are received in order: decoding what a sender wrote gives back
      exactly the messages it sent, then end of file. */
  lemma {:induction false} FramesRoundTrip(c: Codec, ms: seq<Value>)
    requires LineSafe(c)
    ensures DecodeAll(c, Frames(c, ms)) == seq(|ms|, i requires 0 <= i < |ms| => Some(ms[i]))
  {
    if ms != [] {
      ReadLineFrame(c, ms[0], Frames(c, ms[1..]));
      assert Frame(c, ms[0]) != "";
      FramesRoundTrip(c, ms[1..]);
    }
  }

  /** Frames written one after the other form the frames of the whole sequence. */
  lemma {:induction false} FramesAppend(c: Codec, ms: seq<Value>, m: Value)
    ensures Frames(c, ms + [m]) == Frames(c, ms) + Frame(c, m)
  {
    if ms == [] {
      assert [m][1..] == [];
    } else {
      assert (ms + [m])[1..] == ms[1..] + [m];
      FramesAppend(c, ms[1..], m);
    }
  }

  /** Failures of the channel. `NotConnected` is `PipeNotConnectedError`, `ClosedByPeer`
      the server's "Connection closed by client"; both are `IPCError`s. An `OSError`
      while opening a pipe and a `json.loads` failure are other exceptions. */
  datatype IpcError = NotConnected | ClosedByPeer | OsFailure | MalformedJson

  predicate IsIpcError(e: IpcError) {
    e.NotConnected? || e.ClosedByPeer?
  }

  /** How the blocking `open` calls of `connect` end: the first open fails, the second
      one fails, or both succeed and the peer will write `output` and then close. */
  datatype PeerOpen = FirstOpenFails | SecondOpenFails | Opened(output: string)

  /** The request document: `{"message": t, "data": data or {}}`. */
  function RequestMessage(t: string, data: Option<map<string, Value>>): Value {
    Object(map["message" := Str(t), "data" := Object(if data.Some? then data.value else map[])])
  }

  class NamedPipeServer {
    const codec: Codec
    var config: Option<PipeConfig>
    var tempDir: Option<Path>
    /** Text written to `pipe_in`, if it is open. */
    var pipeIn: Option<string>
    /** Text of `pipe_out` not yet read, if it is open. */
    var pipeOut: Option<string>
    var isConnected: bool

    ghost predicate Valid()
      reads this
    {
      isConnected ==> pipeIn.Some? && pipeOut.Some? && config.Some?
    }

    constructor(codec: Codec, config: Option<PipeConfig>)
      ensures Valid()
      ensures this.codec == codec && this.config == config
      ensures tempDir.None? && pipeIn.None? && pipeOut.None? && !isConnected
    {
      this.codec := codec;
      this.config := config;
      tempDir := None;
      pipeIn := None;
      pipeOut := None;
      isConnected := false;
    }

    /** The `config` property. */
    function Config(): (r: Result<PipeConfig, IpcError>)
      reads this
      ensures r.Err? <==> config.None?
      ensures r.Err? ==> r.error == NotConnected
    {
      if config.None? then Err(NotConnected) else Ok(config.value)
    }

    /** `setup`: a fresh temporary directory `dir` holding the two pipes. */
    method Setup(dir: Path) returns (c: PipeConfig)
      requires Valid()
      modifies this
      ensures Valid()
      ensures c == DefaultPipeConfig(dir) && config == Some(c) && tempDir == Some(dir)
      ensures pipeIn == old(pipeIn) && pipeOut == old(pipeOut) && isConnected == old(isConnected)
    {
      tempDir := Some(dir);
      c := DefaultPipeConfig(dir);
      config := Some(c);
    }

    /** `connect`: opens `pipe_in` for writing, then `pipe_out` for reading. */
    method Connect(peer: PeerOpen) returns (err: Option<IpcError>)
      requires Valid()
      modifies this
      ensures Valid()
      ensures old(config).None? ==> err == Some(NotConnected) && pipeIn == old(pipeIn) && isConnected == old(isConnected)
      ensures old(config).Some? && peer.FirstOpenFails? ==>
                err == Some(OsFailure) && pipeIn == old(pipeIn) && isConnected == old(isConnected)
      ensures old(config).Some? && peer.SecondOpenFails? ==>
                err == Some(OsFailure) && pipeIn == Some("") && isConnected == old(isConnected)
      ensures old(config).Some? && peer.Opened? ==>
                err.None? && isConnected && pipeIn == Some("") && pipeOut == Some(peer.output)
      ensures err.Some? ==> pipeOut == old(pipeOut)
      ensures config == old(config) && tempDir == old(tempDir)
    {
      if config.None? {
        return Some(NotConnected);
      }
      if peer.FirstOpenFails? {
        return Some(OsFailure);
      }
      pipeIn := Some("");
      if peer.SecondOpenFails? {
        return Some(OsFailure);
      }
      pipeOut := Some(peer.output);
      isConnected := true;
      err := None;
    }

    /** `send`: appends exactly one frame to `pipe_in`. */
    method Send(m: Value) returns (err: Option<IpcError>)
      requires Valid()
      modifies this`pipeIn
      ensures Valid()
      ensures err.Some? <==> !isConnected
      ensures err.Some? ==> err.value == NotConnected && pipeIn == old(pipeIn)
      ensures err.None? ==> pipeIn == Some(old(pipeIn).value + Frame(codec, m))
    {
      if !isConnected || pipeIn.None? {
        return Some(NotConnected);
      }
      pipeIn := Some(pipeIn.value + Frame(codec, m));
      err := None;
    }

    /** `receive`: reads one line of `pipe_out` and decodes it; end of file is an error. */
    method Receive() returns (r: Result<Value, IpcError>)
      requires Valid()
      modifies this`pipeOut
      ensures Valid()
      ensures !isConnected ==> r == Err(NotConnected) && pipeOut == old(pipeOut)
      ensures isConnected ==> pipeOut == Some(ReadLine(old(pipeOut).value).1)
      ensures isConnected ==> r == ServerDecode(codec, ReadLine(old(pipeOut).value).0)
    {
      if !isConnected || pipeOut.None? {
        return Err(NotConnected);
      }
      var (line, rest) := ReadLine(pipeOut.value);
      pipeOut := Some(rest);
      r := ServerDecode(codec, line);
    }

    /** `request`: sends `{"message": t, "data": data or {}}`, then receives the next message. */
    method Request(t: string, data: Option<map<string, Value>>) returns (r: Result<Value, IpcError>)
      requires Valid()
      modifies this`pipeIn, this`pipeOut
      ensures Valid()
      ensures !isConnected ==> r == Err(NotConnected) && pipeIn == old(pipeIn) && pipeOut == old(pipeOut)
      ensures isConnected ==> pipeIn == Some(old(pipeIn).value + Frame(codec, RequestMessage(t, data)))
      ensures isConnected ==> pipeOut == Some(ReadLine(old(pipeOut).value).1)
      ensures isConnected ==> r == ServerDecode(codec, ReadLine(old(pipeOut).value).0)
    {
      var err := Send(RequestMessage(t, data));
      if err.Some? {
        return Err(err.value);
      }
      r := Receive();
    }

    /** `close`: releases both pipes and the temporary directory and forgets the config. */
    method Close()
      modifies this
      ensures Valid()
      ensures !isConnected && pipeIn.None? && pipeOut.None? && tempDir.None? && config.None?
    {
      isConnected := false;
      pipeIn := None;
      pipeOut := None;
      tempDir := None;
      config := None;
    }
  }

  /** What the server's `receive` makes of one line read. */
  function ServerDecode(c: Codec, line: string): (r: Result<Value, IpcError>)
    ensures line == "" ==> r == Err(ClosedByPeer)
    ensures line != "" ==> (r.Ok? <==> c.decode(line).Some?)
  {
    if line == "" then Err(ClosedByPeer)
    else if c.decode(line).None? then Err(MalformedJson)
    else Ok(c.decode(line).value)
  }

  /** What the client's `receive` makes of one line read: `None` at end of file. */
  function ClientDecode(c: Codec, line: string): (r: Result<Option<Value>, IpcError>)
    ensures line == "" ==> r == Ok(None)
    ensures line != "" ==> (r.Ok? <==> c.decode(line).Some?)
  {
    if line == "" then Ok(None)
    else if c.decode(line).None? then Err(MalformedJson)
    else Ok(Some(c.decode(line).value))
  }

  class NamedPipeClient {
    const codec: Codec
    const config: PipeConfig
    /** Text of `pipe_in` not yet read, if it is open. */
    var pipeIn: Option<string>
    /** Text written to `pipe_out`, if it is open. */
    var pipeOut: Option<string>
    var isConnected: bool

    ghost predicate Valid()
      reads this
    {
      isConnected ==> pipeIn.Some? && pipeOut.Some?
    }

    constructor(codec: Codec, pipeDir: Path)
      ensures Valid()
      ensures this.codec == codec && config == DefaultPipeConfig(pipeDir)
      ensures pipeIn.None? && pipeOut.None? && !isConnected
    {
      this.codec := codec;
      config := DefaultPipeConfig(pipeDir);
      pipeIn := None;
      pipeOut := None;
      isConnected := false;
    }

    /** `connect`: opens `pipe_in` for reading, then `pipe_out` for writing; the server
        will write `peer.output` to `pipe_in`. */
    method Connect(peer: PeerOpen) returns (err: Option<IpcError>)
      requires Valid()
      modifies this
      ensures Valid()
      ensures peer.FirstOpenFails? ==> err == Some(OsFailure) && pipeIn == old(pipeIn) && isConnected == old(isConnected)
      ensures peer.SecondOpenFails? ==> err == Some(OsFailure) && pipeIn == Some("") && isConnected == old(isConnected)
      ensures peer.Opened? ==> err.None? && isConnected && pipeIn == Some(peer.output) && pipeOut == Some("")
      ensures err.Some? ==> pipeOut == old(pipeOut)
    {
      if peer.FirstOpenFails? {
        return Some(OsFailure);
      }
      pipeIn := Some(if peer.Opened? then peer.output else "");
      if peer.SecondOpenFails? {
        return Some(OsFailure);
      }
      pipeOut := Some("");
      isConnected := true;
      err := None;
    }

    /** `send`: appends exactly one frame to `pipe_out`. */
    method Send(m: Value) returns (err: Option<IpcError>)
      requires Valid()
      modifies this`pipeOut
      ensures Valid()
      ensures err.Some? <==> !isConnected
      ensures err.Some? ==> err.value == NotConnected && pipeOut == old(pipeOut)
      ensures err.None? ==> pipeOut == Some(old(pipeOut).value + Frame(codec, m))
    {
      if !isConnected || pipeOut.None? {
        return Some(NotConnected);
      }
      pipeOut := Some(pipeOut.value + Frame(codec, m));
      err := None;
    }

    /** `receive`: reads one line of `pipe_in` and decodes it; `None` at end of file. */
    method Receive() returns (r: Result<Option<Value>, IpcError>)
      requires Valid()
      modifies this`pipeIn
      ensures Valid()
      ensures !isConnected ==> r == Err(NotConnected) && pipeIn == old(pipeIn)
      ensures isConnected ==> pipeIn == Some(ReadLine(old(pipeIn).value).1)
      ensures isConnected ==> r == ClientDecode(codec, ReadLine(old(pipeIn).value).0)
    {
      if !isConnected || pipeIn.None? {
        return Err(NotConnected);
      }
      var (line, rest) := ReadLine(pipeIn.value);
      pipeIn := Some(rest);
      r := ClientDecode(codec, line);
    }

    /** `close`: releases both pipes. */
    method Close()
      modifies this
      ensures Valid()
      ensures !isConnected && pipeIn.None? && pipeOut.None?
    {
      isConnected := false;
      pipeIn := None;
      pipeOut := None;
    }
  }
}
