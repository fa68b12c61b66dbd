/** The worker side: a `ModelClient` discovers its handlers from its attributes, answers
    each request read from `pipe_in` with one response written to `pipe_out`, and stops
    at end of file or right after answering `shutdown`. */
module Client {
  import opened Values
  import opened Dicts
  import opened Paths
  import opened Ipc
  import Text

  /** What calling a handler with keyword arguments does: it returns a document, raises a
      `TypeError` (typically a keyword mismatch), or raises another exception. */
  datatype Outcome = Returns(result: Value) | RaisesTypeError(message: string) | Raises(message: string, traceback: string)

  /** What a method does when called: one of the three built-in handlers of `ModelClient`,
      or code of the model's own subclass. */
  datatype Behaviour =
    | PingBuiltin
    | ShutdownBuiltin
    | DispatchBuiltin
    | UserCode(call: map<string, Value> -> Outcome)

  /** One public or private attribute of the client object, as `dir()` lists it. */
  datatype Attribute = Attribute(name: string, isCallable: bool, handlerTag: Option<string>, behaviour: Behaviour)

  /** `@handler(tag)`: a callable wrapper that carries the tag and behaves like the method. */
  function Handler(tag: string, method_: Attribute): (r: Attribute)
    ensures r.handlerTag == Some(tag) && r.isCallable
    ensures r.name == method_.name && r.behaviour == method_.behaviour
  {
    method_.(handlerTag := Some(tag), isCallable := true)
  }

  predicate HasPrefix(s: string, p: string) {
    |p| <= |s| && s[..|p|] == p
  }

  /** The handler name an attribute registers under in `_discover_handlers`, if any. */
  function HandlerKey(a: Attribute): (k: Option<string>)
    ensures k.Some? ==> a.isCallable && !HasPrefix(a.name, "_")
    ensures k.Some? && a.handlerTag.Some? && a.handlerTag.value != "" ==> k.value == a.handlerTag.value
    ensures k.Some? && (a.handlerTag.None? || a.handlerTag.value == "") ==> a.name == "handle_" + k.value
    ensures a.isCallable && !HasPrefix(a.name, "_") && (HasPrefix(a.name, "handle_") || (a.handlerTag.Some? && a.handlerTag.value != "")) ==> k.Some?
  {
    if HasPrefix(a.name, "_") || !a.isCallable then None
    else if a.handlerTag.Some? && a.handlerTag.value != "" then Some(a.handlerTag.value)
    else if HasPrefix(a.name, "handle_") then
      assert a.name == "handle_" + a.name[7..];
      Some(a.name[7..])
    else None
  }

  /** The handler table after visiting `attrs` in order: a later attribute registering an
      existing name replaces the method and keeps the name's position. */
  function Discover(attrs: seq<Attribute>): Dict<Attribute>
    decreases |attrs|
  {
    if attrs == [] then []
    else
      var d := Discover(attrs[..|attrs| - 1]);
      var last := attrs[|attrs| - 1];
      match HandlerKey(last)
      case None => d
      case Some(k) => Put(d, k, last)
  }

  /** Attribute `i` is the last of `attrs` that registers under `k`. */
  predicate LastRegistering(attrs: seq<Attribute>, k: string, i: int) {
    0 <= i < |attrs| && HandlerKey(attrs[i]) == Some(k) &&
    forall j :: i < j < |attrs| ==> HandlerKey(attrs[j]) != Some(k)
  }

  /** The handler table has distinct names. */
  lemma {:induction false} DiscoverWellFormed(attrs: seq<Attribute>)
    ensures WellFormed(Discover(attrs))
    decreases |attrs|
  {
    if attrs != [] {
      var init := attrs[..|attrs| - 1];
      DiscoverWellFormed(init);
      var last := attrs[|attrs| - 1];
      if HandlerKey(last).Some? {
        PutKeepsWellFormed(Discover(init), HandlerKey(last).value, last);
      }
    }
  }

  /** A name is registered exactly when some attribute registers under it. */
  lemma {:induction false} DiscoverRegisters(attrs: seq<Attribute>, k: string)
    ensures Lookup(Discover(attrs), k).None? <==> forall i :: 0 <= i < |attrs| ==> HandlerKey(attrs[i]) != Some(k)
    decreases |attrs|
  {
    if attrs != [] {
      var n := |attrs|;
      var init := attrs[..n - 1];
      DiscoverRegisters(init, k);
      assert forall i :: 0 <= i < n - 1 ==> attrs[i] == init[i];
      DiscoverLast(attrs, k);
    }
  }

  /** The last attribute decides a name it registers under; otherwise the name is bound
      as before it. */
  lemma DiscoverLast(attrs: seq<Attribute>, k: string)
    requires attrs != []
    ensures var last := attrs[|attrs| - 1];
      Lookup(Discover(attrs), k) == if HandlerKey(last) == Some(k) then Some(last) else Lookup(Discover(attrs[..|attrs| - 1]), k)
  {
    var last := attrs[|attrs| - 1];
    var key := HandlerKey(last);
    if key.Some? {
      LookupPut(Discover(attrs[..|attrs| - 1]), key.value, last, k);
    }
  }

  /** A registered name is bound to the last attribute that registers under it. */
  lemma {:induction false} DiscoverBindsLast(attrs: seq<Attribute>, k: string) returns (i: int)
    requires Lookup(Discover(attrs), k).Some?
    ensures LastRegistering(attrs, k, i) && attrs[i] == Lookup(Discover(attrs), k).value
    decreases |attrs|
  {
    var n := |attrs|;
    var init := attrs[..n - 1];
    DiscoverLast(attrs, k);
    if HandlerKey(attrs[n - 1]) == Some(k) {
      i := n - 1;
    } else {
      i := DiscoverBindsLast(init, k);
      forall j | i < j < n ensures HandlerKey(attrs[j]) != Some(k) {
        if j < n - 1 {
          assert attrs[j] == init[j];
        }
      }
      assert attrs[i] == init[i];
    }
  }

  /** The public methods of `ModelClient` itself that register as handlers, in `dir()`
      order; its other public methods (`get_handlers`, `run`, `setup`, `teardown`) have
      neither a tag nor the `handle_` prefix. */
  const BaseAttributes: seq<Attribute> := [
    Attribute("handle_message", true, None, DispatchBuiltin),
    Attribute("handle_ping", true, None, PingBuiltin),
    Attribute("handle_shutdown", true, None, ShutdownBuiltin)
  ]

  /** A callable, untagged `handle_<suffix>` registers under `suffix`. */
  lemma PrefixedKey(suffix: string, b: Behaviour)
    ensures HandlerKey(Attribute("handle_" + suffix, true, None, b)) == Some(suffix)
  {
    var n := "handle_" + suffix;
    assert n[..7] == "handle_" && n[7..] == suffix && n[..1] == "h";
  }

  /** Visiting one more attribute. */
  lemma DiscoverSnoc(attrs: seq<Attribute>, a: Attribute)
    ensures Discover(attrs + [a]) ==
              if HandlerKey(a).None? then Discover(attrs) else Put(Discover(attrs), HandlerKey(a).value, a)
  {
    assert (attrs + [a])[..|attrs|] == attrs;
  }

  /** The names the three inherited handlers register under. */
  lemma BaseKeys()
    ensures HandlerKey(BaseAttributes[0]) == Some("message")
    ensures HandlerKey(BaseAttributes[1]) == Some("ping")
    ensures HandlerKey(BaseAttributes[2]) == Some("shutdown")
  {
    var b := BaseAttributes;
    PrefixedKey("message", DispatchBuiltin);
    PrefixedKey("ping", PingBuiltin);
    PrefixedKey("shutdown", ShutdownBuiltin);
    assert b[0] == Attribute("handle_" + "message", true, None, DispatchBuiltin);
    assert b[1] == Attribute("handle_" + "ping", true, None, PingBuiltin);
    assert b[2] == Attribute("handle_" + "shutdown", true, None, ShutdownBuiltin);
  }

  /** A plain `ModelClient` answers `message`, `ping` and `shutdown`. */
  lemma BaseHandlers()
    ensures Keys(Discover(BaseAttributes)) == ["message", "ping", "shutdown"]
  {
    var b := BaseAttributes;
    BaseKeys();
    assert b == (([] + [b[0]]) + [b[1]]) + [b[2]];
    DiscoverSnoc([], b[0]);
    var d1 := Discover([] + [b[0]]);
    KeysPut([], "message", b[0]);
    DiscoverSnoc([] + [b[0]], b[1]);
    var d2 := Discover(([] + [b[0]]) + [b[1]]);
    KeysPut(d1, "ping", b[1]);
    DiscoverSnoc(([] + [b[0]]) + [b[1]], b[2]);
    KeysPut(d2, "shutdown", b[2]);
  }

  /** `ping` and `shutdown` stay registered whenever the inherited built-ins are among the
      attributes, whatever else the subclass defines. */
  lemma BuiltinsRegistered(attrs: seq<Attribute>)
    requires BaseAttributes[1] in attrs && BaseAttributes[2] in attrs
    ensures "ping" in Keys(Discover(attrs)) && "shutdown" in Keys(Discover(attrs))
  {
    var b := BaseAttributes;
    PrefixedKey("ping", PingBuiltin);
    PrefixedKey("shutdown", ShutdownBuiltin);
    assert b[1] == Attribute("handle_" + "ping", true, None, PingBuiltin);
    assert b[2] == Attribute("handle_" + "shutdown", true, None, ShutdownBuiltin);
    DiscoverRegisters(attrs, "ping");
    DiscoverRegisters(attrs, "shutdown");
  }

  /** What `handle_message` hands back: the response and whether `_running` was cleared. */
  datatype Reply = Reply(response: Value, stops: bool)

  /** Python's type name of a decoded document. */
  function TypeName(v: Value): string {
    match v
    case Null => "NoneType"
    case Bool(_) => "bool"
    case Int(_) => "int"
    case Str(_) => "str"
    case List(_) => "list"
    case Object(_) => "dict"
  }

  /** `str(v)` for a document that can be a dictionary key. */
  function KeyText(v: Value): string {
    match v
    case Null => "None"
    case Bool(b) => if b then "True" else "False"
    case Int(i) => Text.IntToString(i)
    case Str(s) => s
    case _ => ""
  }

  function HandlerList(h: Dict<Attribute>): Value {
    var ks := Keys(h);
    List(seq(|ks|, i requires 0 <= i < |ks| => Str(ks[i])))
  }

  function PingResponse(h: Dict<Attribute>): Value {
    Object(map["status" := Str("pong"), "handlers" := HandlerList(h)])
  }

  const ShutdownResponse: Value := Object(map["status" := Str("shutting_down")])

  function UnknownResponse(h: Dict<Attribute>, message: Value): Value {
    Object(map["error" := Str("Unknown message type: " + KeyText(message)), "available_handlers" := HandlerList(h)])
  }

  const ArgumentErrorPrefix := "Handler argument error: "

  /** The response for what a handler did. */
  function Respond(o: Outcome): (v: Value)
    ensures v.Object?
    ensures o.Returns? && o.result.Object? ==> v == o.result
    ensures o.Returns? && !o.result.Object? ==> v.fields == map["result" := o.result]
    ensures o.RaisesTypeError? ==> v.fields == map["error" := Str(ArgumentErrorPrefix + o.message)]
    ensures o.Raises? ==> v.fields == map["error" := Str(o.message), "traceback" := Str(o.traceback)]
  {
    match o
    case Returns(r) => if r.Object? then r else Object(map["result" := r])
    case RaisesTypeError(m) => Object(map["error" := Str(ArgumentErrorPrefix + m)])
    case Raises(m, tb) => Object(map["error" := Str(m), "traceback" := Str(tb)])
  }

  /** `handler_func(**data)`: what the call does and whether it cleared `_running`. */
  function Invoke(h: Dict<Attribute>, b: Behaviour, data: Value): (r: (Outcome, bool))
    ensures r.1 ==> b.ShutdownBuiltin? || b.DispatchBuiltin?
    ensures !data.Object? ==> r == (RaisesTypeError("argument after ** must be a mapping, not " + TypeName(data)), false)
    decreases data, 0
  {
    match data
    case Object(f) => (
      match b
      case PingBuiltin =>
        if "self" in f then (RaisesTypeError("got multiple values for argument 'self'"), false)
        else (Returns(PingResponse(h)), false)
      case ShutdownBuiltin =>
        if "self" in f then (RaisesTypeError("got multiple values for argument 'self'"), false)
        else (Returns(ShutdownResponse), true)
      case DispatchBuiltin =>
        if f.Keys != {"message", "data"} then (RaisesTypeError("handle_message() takes the keyword arguments 'message' and 'data'"), false)
        else (
          match HandleMessage(h, f["message"], f["data"])
          case Err(t) => (RaisesTypeError(t), false)
          case Ok(rep) => (Returns(rep.response), rep.stops))
      case UserCode(call) => (call(f), false))
    case _ => (RaisesTypeError("argument after ** must be a mapping, not " + TypeName(data)), false)
  }

  /** `handle_message(message, data)`. `Err` is the `TypeError` of looking up an unhashable
      message, which escapes `handle_message`; every other failure becomes an error response. */
  function HandleMessage(h: Dict<Attribute>, message: Value, data: Value): (r: Result<Reply, string>)
    ensures r.Err? <==> message.List? || message.Object?
    ensures r.Ok? ==> r.value.response.Object?
    ensures !message.List? && !message.Object? && (!message.Str? || message.s !in Keys(h)) ==>
              r == Ok(Reply(UnknownResponse(h, message), false))
    ensures message.Str? && message.s in Keys(h) ==>
              r == Ok(Reply(Respond(Invoke(h, Lookup(h, message.s).value.behaviour, data).0),
                            Invoke(h, Lookup(h, message.s).value.behaviour, data).1))
    ensures r.Ok? && r.value.stops ==>
              (message.Str? && message.s in Keys(h) &&
               (Lookup(h, message.s).value.behaviour.ShutdownBuiltin? || Lookup(h, message.s).value.behaviour.DispatchBuiltin?))
    decreases data, 1
  {
    match message
    case List(_) => Err("unhashable type: 'list'")
    case Object(_) => Err("unhashable type: 'dict'")
    case Str(s) =>
      if Lookup(h, s).None? then Ok(Reply(UnknownResponse(h, message), false))
      else
        var (o, stops) := Invoke(h, Lookup(h, s).value.behaviour, data);
        Ok(Reply(Respond(o), stops))
    case _ => Ok(Reply(UnknownResponse(h, message), false))
  }

  /** `ping` answers "pong" with the list of handler names and keeps the loop running. */
  lemma PingAnswersPong(h: Dict<Attribute>, fields: map<string, Value>)
    requires Lookup(h, "ping") == Some(BaseAttributes[1]) && "self" !in fields
    ensures HandleMessage(h, Str("ping"), Object(fields)) == Ok(Reply(PingResponse(h), false))
    ensures PingResponse(h).fields["status"] == Str("pong")
    ensures PingResponse(h).fields["handlers"] == HandlerList(h)
  {
  }

  /** The list `ping` and unknown names report holds every handler name and nothing else. */
  lemma HandlerListNames(h: Dict<Attribute>)
    ensures forall k :: Str(k) in HandlerList(h).items <==> k in Keys(h)
  {
    var ks := Keys(h);
    var items := HandlerList(h).items;
    forall k ensures Str(k) in items <==> k in ks {
      if Str(k) in items {
        var i :| 0 <= i < |items| && items[i] == Str(k);
        assert ks[i] == k;
      }
      if k in ks {
        var i :| 0 <= i < |ks| && ks[i] == k;
        assert items[i] == Str(k);
      }
    }
  }

  /** `shutdown` answers "shutting_down" and clears `_running`. */
  lemma ShutdownStops(h: Dict<Attribute>, fields: map<string, Value>)
    requires Lookup(h, "shutdown") == Some(BaseAttributes[2]) && "self" !in fields
    ensures HandleMessage(h, Str("shutdown"), Object(fields)) == Ok(Reply(ShutdownResponse, true))
    ensures ShutdownResponse.fields["status"] == Str("shutting_down")
  {
  }

  /** An unknown name reports the available handlers and invokes nothing. */
  lemma {:induction false} UnknownInvokesNothing(h: Dict<Attribute>, name: string, data: Value)
    requires Lookup(h, name).None?
    ensures HandleMessage(h, Str(name), data) == Ok(Reply(UnknownResponse(h, Str(name)), false))
    ensures UnknownResponse(h, Str(name)).fields["error"] == Str("Unknown message type: " + name)
    ensures UnknownResponse(h, Str(name)).fields["available_handlers"] == HandlerList(h)
  {
  }

  /** A response carries the key "error" exactly when the request failed: unknown name,
      keyword mismatch, exception, or a handler that itself returned an "error" key. */
  lemma UserHandlerResponse(h: Dict<Attribute>, name: string, call: map<string, Value> -> Outcome, fields: map<string, Value>)
    requires Lookup(h, name).Some? && Lookup(h, name).value.behaviour == UserCode(call)
    ensures HandleMessage(h, Str(name), Object(fields)).Ok?
    ensures !HandleMessage(h, Str(name), Object(fields)).value.stops
    ensures "error" in HandleMessage(h, Str(name), Object(fields)).value.response.fields <==>
              !call(fields).Returns? || (call(fields).result.Object? && "error" in call(fields).result.fields)
  {
  }

  /** How a session of the message loop ends. */
  datatype Ending = EndOfInput | ShutDown | Crashed

  /** The responses the loop sent, in order, and how it ended. */
  datatype Session = Session(responses: seq<Value>, ending: Ending)

  function Then(done: seq<Value>, s: Session): Session {
    Session(done + s.responses, s.ending)
  }

  /** One decoded request: `request.get("message", "")` and `request.get("data", {})` on a
      dictionary; any other document makes `.get` raise. */
  function Step(h: Dict<Attribute>, request: Value): Result<Reply, string> {
    match request
    case Object(f) => HandleMessage(h, Get(f, "message", Str("")), Get(f, "data", EmptyObject))
    case _ => Err("'" + TypeName(request) + "' object has no attribute 'get'")
  }

  /** The loop over already decoded requests. */
  function ServeValues(h: Dict<Attribute>, requests: seq<Value>): Session {
    if requests == [] then Session([], EndOfInput)
    else
      match Step(h, requests[0])
      case Err(_) => Session([], Crashed)
      case Ok(rep) =>
        if rep.stops then Session([rep.response], ShutDown)
        else Then([rep.response], ServeValues(h, requests[1..]))
  }

  /** The loop over the text of `pipe_in`, as the client's `receive` reads it. */
  function ServeText(c: Codec, h: Dict<Attribute>, input: string): Session
    decreases |input|
  {
    if input == "" then Session([], EndOfInput)
    else
      var (line, rest) := ReadLine(input);
      match ClientDecode(c, line)
      case Err(_) => Session([], Crashed)
      case Ok(None) => Session([], EndOfInput)
      case Ok(Some(request)) =>
        match Step(h, request)
        case Err(_) => Session([], Crashed)
        case Ok(rep) =>
          if rep.stops then Session([rep.response], ShutDown)
          else Then([rep.response], ServeText(c, h, rest))
  }

  /** The loop answers the i-th request with the i-th response, one for one, and only the
      last answered request may have asked it to stop. */
  lemma {:induction false} ServeValuesAnswers(h: Dict<Attribute>, requests: seq<Value>)
    ensures var s := ServeValues(h, requests);
      && |s.responses| <= |requests|
      && (forall i :: 0 <= i < |s.responses| ==> Step(h, requests[i]).Ok? && Step(h, requests[i]).value.response == s.responses[i])
      && (forall i :: 0 <= i < |s.responses| - 1 ==> !Step(h, requests[i]).value.stops)
  {
    if requests != [] && Step(h, requests[0]).Ok? && !Step(h, requests[0]).value.stops {
      ServeValuesAnswers(h, requests[1..]);
      var tail := ServeValues(h, requests[1..]);
      var s := ServeValues(h, requests);
      assert s.responses == [Step(h, requests[0]).value.response] + tail.responses;
      forall i | 1 <= i < |s.responses|
        ensures Step(h, requests[i]).Ok? && Step(h, requests[i]).value.response == s.responses[i]
        ensures i < |s.responses| - 1 ==> !Step(h, requests[i]).value.stops
      {
        assert requests[i] == requests[1..][i - 1];
        assert s.responses[i] == tail.responses[i - 1];
      }
    }
  }

  /** The loop reads to the end unless a request asks it to stop, after which it answers
      nothing more, or a request crashes it, which gets no answer. */
  lemma {:induction false} ServeValuesEnding(h: Dict<Attribute>, requests: seq<Value>)
    ensures var s := ServeValues(h, requests);
      && (s.ending == EndOfInput ==>
            |s.responses| == |requests| && forall i :: 0 <= i < |requests| ==> Step(h, requests[i]).Ok? && !Step(h, requests[i]).value.stops)
      && (s.ending == ShutDown ==>
            1 <= |s.responses| <= |requests| && Step(h, requests[|s.responses| - 1]).Ok? && Step(h, requests[|s.responses| - 1]).value.stops)
      && (s.ending == Crashed ==> |s.responses| < |requests| && Step(h, requests[|s.responses|]).Err?)
  {
    if requests != [] && Step(h, requests[0]).Ok? && !Step(h, requests[0]).value.stops {
      ServeValuesEnding(h, requests[1..]);
      var tail := ServeValues(h, requests[1..]);
      var n := |tail.responses|;
      assert |ServeValues(h, requests).responses| == n + 1;
      if tail.ending == EndOfInput {
        forall i | 1 <= i < |requests| ensures Step(h, requests[i]).Ok? && !Step(h, requests[i]).value.stops {
          assert requests[i] == requests[1..][i - 1];
        }
      } else if tail.ending == ShutDown {
        assert requests[n] == requests[1..][n - 1];
      } else {
        assert requests[n + 1] == requests[1..][n];
      }
    }
  }

  /** Reading the frames of decoded requests drives the loop exactly as the requests do. */
  lemma {:induction false} ServeFrames(c: Codec, h: Dict<Attribute>, requests: seq<Value>)
    requires LineSafe(c)
    ensures ServeText(c, h, Frames(c, requests)) == ServeValues(h, requests)
  {
    if requests != [] {
      var rest := Frames(c, requests[1..]);
      ReadLineFrame(c, requests[0], rest);
      assert Frame(c, requests[0]) != "";
      var line := Frame(c, requests[0]);
      assert c.decode(line) == Some(requests[0]);
      assert ClientDecode(c, line) == Ok(Some(requests[0]));
      ServeFrames(c, h, requests[1..]);
    }
  }

  /** A line that does not decode, or a request the loop cannot handle, ends the session. */
  lemma ServeTextCrash(c: Codec, h: Dict<Attribute>, input: string)
    requires input != ""
    requires var got := ClientDecode(c, ReadLine(input).0);
      got.Err? || (got.value.Some? && Step(h, got.value.value).Err?)
    ensures ServeText(c, h, input) == Session([], Crashed)
  {
  }

  /** A handled request is answered first; the session goes on with the rest of the input
      unless the request stopped the loop. */
  lemma ServeTextAnswer(c: Codec, h: Dict<Attribute>, input: string, request: Value)
    requires input != "" && ClientDecode(c, ReadLine(input).0) == Ok(Some(request))
    requires Step(h, request).Ok?
    ensures var rep := Step(h, request).value;
      ServeText(c, h, input) ==
        if rep.stops then Session([rep.response], ShutDown)
        else Then([rep.response], ServeText(c, h, ReadLine(input).1))
  {
  }

  /** After the responses `done`, a handled request extends them by its response; the
      session then ends if the request stopped the loop and goes on with the rest of the
      input otherwise. */
  lemma AnswerSession(c: Codec, h: Dict<Attribute>, input: string, remaining: string, done: seq<Value>, request: Value)
    requires remaining != "" && ClientDecode(c, ReadLine(remaining).0) == Ok(Some(request))
    requires Step(h, request).Ok?
    requires ServeText(c, h, input) == Then(done, ServeText(c, h, remaining))
    ensures request.Object?
    ensures Step(h, request) ==
              HandleMessage(h, Get(request.fields, "message", Str("")), Get(request.fields, "data", EmptyObject))
    ensures var rep := Step(h, request).value;
      && (rep.stops ==> ServeText(c, h, input) == Session(done + [rep.response], ShutDown))
      && (!rep.stops ==> ServeText(c, h, input) == Then(done + [rep.response], ServeText(c, h, ReadLine(remaining).1)))
  {
    ServeTextAnswer(c, h, remaining, request);
    var rep := Step(h, request).value;
    if !rep.stops {
      assert done + ([rep.response] + ServeText(c, h, ReadLine(remaining).1).responses) ==
             (done + [rep.response]) + ServeText(c, h, ReadLine(remaining).1).responses;
    }
  }

  datatype ExitStatus = ExitOk | ExitFailure

  class ModelClient {
    const codec: Codec
    /** `PYMODELSERVE_PIPE_DIR`, read as a path. */
    const pipeDir: Option<Path>
    var ipc: NamedPipeClient?
    var handlers: Dict<Attribute>
    var running: bool

    ghost predicate Valid()
      reads this
    {
      WellFormed(handlers)
    }

    /** `__init__`: reads the environment and discovers the handlers among `attrs`, the
        object's attributes in `dir()` order. */
    constructor(codec: Codec, pipeDir: Option<Path>, attrs: seq<Attribute>)
      ensures Valid()
      ensures this.codec == codec && this.pipeDir == pipeDir
      ensures handlers == Discover(attrs) && ipc == null && !running
    {
      this.codec := codec;
      this.pipeDir := pipeDir;
      ipc := null;
      handlers := [];
      running := false;
      new;
      DiscoverHandlers(attrs);
      DiscoverWellFormed(attrs);
    }

    /** `_discover_handlers`. */
    method DiscoverHandlers(attrs: seq<Attribute>)
      requires handlers == []
      modifies this`handlers
      ensures handlers == Discover(attrs)
    {
      var i := 0;
      while i < |attrs|
        invariant 0 <= i <= |attrs|
        invariant handlers == Discover(attrs[..i])
      {
        var a := attrs[i];
        assert attrs[..i + 1][..i] == attrs[..i];
        if HasPrefix(a.name, "_") {
        } else if !a.isCallable {
        } else if a.handlerTag.Some? && a.handlerTag.value != "" {
          handlers := Put(handlers, a.handlerTag.value, a);
        } else if HasPrefix(a.name, "handle_") {
          handlers := Put(handlers, a.name[7..], a);
        }
        i := i + 1;
      }
      assert attrs[..|attrs|] == attrs;
    }

    /** `get_handlers`: every registered name, once each. */
    function GetHandlers(): (names: seq<string>)
      requires Valid()
      reads this
      ensures Distinct(names)
      ensures forall n :: n in names <==> Lookup(handlers, n).Some?
    {
      Keys(handlers)
    }

    /** `handle_message` on the object: answers and clears `_running` when a shutdown ran. */
    method Dispatch(message: Value, data: Value) returns (r: Result<Value, string>)
      modifies this`running
      ensures HandleMessage(handlers, message, data).Err? ==> r.Err? && running == old(running)
      ensures HandleMessage(handlers, message, data).Ok? ==>
                r == Ok(HandleMessage(handlers, message, data).value.response) &&
                running == (old(running) && !HandleMessage(handlers, message, data).value.stops)
    {
      var hm := HandleMessage(handlers, message, data);
      if hm.Err? {
        return Err(hm.error);
      }
      if hm.value.stops {
        running := false;
      }
      r := Ok(hm.value.response);
    }

    /** `run`. The server opens its ends as `peer` says and writes `peer.output`;
        `setupFails` says whether the `setup` hook raises. Returns the exit status and
        the text written to `pipe_out` before the pipes were closed. */
    method Run(peer: PeerOpen, setupFails: bool) returns (status: ExitStatus, written: string)
      requires Valid()
      modifies this
      ensures Valid() && handlers == old(handlers)
      ensures pipeDir.None? ==> status == ExitFailure && written == "" && ipc == old(ipc) && running == old(running)
      ensures pipeDir.Some? ==> ipc != null && fresh(ipc) && !ipc.isConnected && ipc.pipeIn.None? && ipc.pipeOut.None?
      ensures pipeDir.Some? && (!peer.Opened? || setupFails) ==> status == ExitFailure && written == "" && running == old(running)
      ensures pipeDir.Some? && peer.Opened? && !setupFails ==>
                var s := ServeText(codec, handlers, peer.output);
                && written == Frames(codec, s.responses)
                && (status == ExitFailure <==> s.ending == Crashed)
                && (running <==> s.ending != ShutDown)
    {
      if pipeDir.None? {
        return ExitFailure, "";
      }
      var pipe := new NamedPipeClient(codec, pipeDir.value);
      ipc := pipe;
      var err := pipe.Connect(peer);
      if err.Some? || setupFails {
        pipe.Close();
        return ExitFailure, "";
      }
      running := true;
      var ending := MessageLoop(pipe);
      status := if ending == Crashed then ExitFailure else ExitOk;
      written := pipe.pipeOut.value;
      pipe.Close();
    }

    /** The `while self._running` loop over a connected client. */
    method MessageLoop(pipe: NamedPipeClient) returns (ending: Ending)
      requires pipe.Valid() && pipe.isConnected && pipe.codec == codec && pipe.pipeOut == Some("")
      requires running
      modifies this`running, pipe`pipeIn, pipe`pipeOut
      ensures pipe.Valid() && pipe.isConnected && pipe.pipeOut.Some?
      ensures var s := ServeText(codec, handlers, old(pipe.pipeIn.value));
        pipe.pipeOut.value == Frames(codec, s.responses) && ending == s.ending && (running <==> ending != ShutDown)
    {
      ghost var input := pipe.pipeIn.value;
      ghost var done: seq<Value> := [];
      assert Then([], ServeText(codec, handlers, input)) == ServeText(codec, handlers, input);
      ending := ShutDown;
      while running
        invariant pipe.Valid() && pipe.isConnected && pipe.codec == codec
        invariant pipe.pipeOut == Some(Frames(codec, done))
        invariant running ==> ServeText(codec, handlers, input) == Then(done, ServeText(codec, handlers, pipe.pipeIn.value))
        invariant !running ==> ServeText(codec, handlers, input) == Session(done, ShutDown) && ending == ShutDown
        decreases if running then 1 + |pipe.pipeIn.value| else 0
      {
        ghost var remaining := pipe.pipeIn.value;
        var received := pipe.Receive();
        if received.Err? || (received.value.Some? && Step(handlers, received.value.value).Err?) {
          ServeTextCrash(codec, handlers, remaining);
          assert done + [] == done;
          return Crashed;
        }
        if received.value.None? {
          assert remaining == "";
          assert done + [] == done;
          return EndOfInput;
        }
        done := Answer(pipe, received.value.value, input, remaining, done);
      }
    }

    /** One handled request of the loop: dispatch it and send the response. */
    method Answer(pipe: NamedPipeClient, request: Value, ghost input: string, ghost remaining: string,
                  ghost done: seq<Value>) returns (ghost done': seq<Value>)
      requires pipe.Valid() && pipe.isConnected && pipe.codec == codec
      requires pipe.pipeOut == Some(Frames(codec, done))
      requires remaining != "" && ClientDecode(codec, ReadLine(remaining).0) == Ok(Some(request))
      requires Step(handlers, request).Ok?
      requires running && pipe.pipeIn == Some(ReadLine(remaining).1)
      requires ServeText(codec, handlers, input) == Then(done, ServeText(codec, handlers, remaining))
      modifies this`running, pipe`pipeOut
      ensures pipe.Valid() && pipe.isConnected && pipe.pipeIn == old(pipe.pipeIn)
      ensures pipe.pipeOut == Some(Frames(codec, done'))
      ensures running ==> ServeText(codec, handlers, input) == Then(done', ServeText(codec, handlers, pipe.pipeIn.value))
      ensures !running ==> ServeText(codec, handlers, input) == Session(done', ShutDown)
    {
      ghost var rep := Step(handlers, request).value;
      AnswerSession(codec, handlers, input, remaining, done, request);
      var r := Dispatch(Get(request.fields, "message", Str("")), Get(request.fields, "data", EmptyObject));
      assert r == Ok(rep.response) && running == !rep.stops;
      var sendErr := pipe.Send(r.value);
      FramesAppend(codec, done, r.value);
      done' := done + [r.value];
    }
  }
}
