/** The MCP adapter: JSON-RPC 2.0 messages to envelopes and back. */
module Mcp {
  import opened Wrappers
  import opened Text
  import opened Envelopes
  import opened Adapters

  datatype RpcError = RpcError(code: Int64, message: string)

  /** A decoded message; a missing id or result is null, and missing parameters are empty. */
  datatype RpcMessage = RpcMessage(
    jsonrpc: string, id: Value, rpcMethod: string, params: Fields, result: Value, error: Option<RpcError>)

  const NAME := "mcp"
  const PROTOCOL := "json-rpc"

  function Validate(msg: RpcMessage): Option<AdapterError> {
    if Blank(msg.jsonrpc) then Some(MissingField("jsonrpc"))
    else if msg.jsonrpc != "2.0" then Some(InvalidField("jsonrpc"))
    else if Blank(msg.rpcMethod) && msg.result.Null? && msg.error.None? then Some(MissingField("method"))
    else None
  }

  /** The text of a message id; whole numbers lose their fraction. */
  function SourceId(lib: Library, id: Value): string {
    match id
    case Null => ""
    case Str(s) => s
    case Float(x) => if x == x.Floor as real && IsInt64(x.Floor) then Itoa(x.Floor) else lib.formatFloat(x)
    case _ => lib.sprint(id)
  }

  function Summary(lib: Library, rpcMethod: string, params: Fields): string {
    if params == map[] then Trim(rpcMethod) else Trim(rpcMethod) + " " + lib.marshal(params)
  }

  /** What a message says: the system metadata and the content of its envelope. */
  function Reading(lib: Library, msg: RpcMessage): Result<(Fields, string), AdapterError> {
    var sourceId := SourceId(lib, msg.id);
    if msg.error.Some? then
      if msg.id.Null? then Failure(MissingId)
      else
        var fields := map[META_TAG := Str(TAG_RESPONSE_ERROR), META_CODE := Str(Itoa(msg.error.value.code)),
                          META_MESSAGE := Str(msg.error.value.message)];
        Success((WithRequestId(fields, sourceId), ""))
    else if !msg.result.Null? then
      if msg.id.Null? then Failure(MissingId)
      else
        Success((WithRequestId(map[META_TAG := Str(TAG_RESPONSE_SUCCESS)], sourceId)[META_RESULT := msg.result], ""))
    else if !Blank(msg.rpcMethod) && msg.id.Null? then
      Success((map[META_TAG := Str(TAG_CONTEXT_PROVIDE)], Summary(lib, msg.rpcMethod, msg.params)))
    else if msg.rpcMethod == "tools/call" && !msg.id.Null? then
      if "name" !in msg.params then Failure(MissingField("name"))
      else if !msg.params["name"].Str? || Blank(msg.params["name"].s) then Failure(InvalidField("name"))
      else
        var args := if "arguments" in msg.params then msg.params["arguments"] else Object(map[]);
        Success((map[META_TAG := Str(TAG_REQUEST_ACTION), META_ACTION := msg.params["name"], META_ARGS := args], ""))
    else Failure(Unsupported)
  }

  function Ingest(lib: Library, msg: RpcMessage, arrival: Arrival): Result<Envelope, AdapterError> {
    match Validate(msg)
    case Some(e) => Failure(e)
    case None =>
      match Reading(lib, msg)
      case Failure(e) => Failure(e)
      case Success((fields, content)) =>
        Accept(Made(NAME, PROTOCOL, arrival, SourceId(lib, msg.id), fields, content))
  }

  /** Ingest as the program runs it: the envelope is filled in place, case by case. */
  method IngestInPlace(lib: Library, msg: RpcMessage, arrival: Arrival) returns (r: Result<Envelope, AdapterError>)
    ensures r == Ingest(lib, msg, arrival)
  {
    hide Blank, Trim, Itoa, Sender, Recipient, AdapterInfo, IsValidTag;
    var invalid := Validate(msg);
    if invalid.Some? {
      return Failure(invalid.value);
    }
    var sourceId := SourceId(lib, msg.id);
    var env := new Draft(NAME, arrival);
    if msg.error.Some? {
      if msg.id.Null? {
        return Failure(MissingId);
      }
      env.SetSystemMeta(META_TAG, Str(TAG_RESPONSE_ERROR));
      env.SetSystemMeta(META_CODE, Str(Itoa(msg.error.value.code)));
      env.SetSystemMeta(META_MESSAGE, Str(msg.error.value.message));
      if sourceId != "" {
        env.SetSystemMeta(META_REQUEST_ID, Str(sourceId));
      }
    } else if !msg.result.Null? {
      if msg.id.Null? {
        return Failure(MissingId);
      }
      env.SetSystemMeta(META_TAG, Str(TAG_RESPONSE_SUCCESS));
      if sourceId != "" {
        env.SetSystemMeta(META_REQUEST_ID, Str(sourceId));
      }
      env.SetSystemMeta(META_RESULT, msg.result);
    } else if !Blank(msg.rpcMethod) && msg.id.Null? {
      env.SetSystemMeta(META_TAG, Str(TAG_CONTEXT_PROVIDE));
      env.content := Summary(lib, msg.rpcMethod, msg.params);
    } else if msg.rpcMethod == "tools/call" && !msg.id.Null? {
      env.SetSystemMeta(META_TAG, Str(TAG_REQUEST_ACTION));
      if "name" !in msg.params {
        return Failure(MissingField("name"));
      }
      var name := msg.params["name"];
      if !name.Str? || Blank(name.s) {
        return Failure(InvalidField("name"));
      }
      env.SetSystemMeta(META_ACTION, name);
      if "arguments" in msg.params {
        env.SetSystemMeta(META_ARGS, msg.params["arguments"]);
      } else {
        env.SetSystemMeta(META_ARGS, Object(map[]));
      }
    } else {
      return Failure(Unsupported);
    }
    env.SetAdapterMetadata(NAME, sourceId, PROTOCOL);
    return Accept(env.Sealed());
  }

  function Emit(env: Envelope): Result<RpcMessage, AdapterError> {
    var tag := EffectiveTag(env);
    if tag == TAG_REQUEST_ACTION then
      var action := SystemMetaString(env, META_ACTION);
      if Blank(action) then Failure(MissingMeta(META_ACTION))
      else
        var args := SystemMeta(env, META_ARGS);
        Success(RpcMessage("2.0", RequestId(env), "tools/call",
                           map["name" := Str(action),
                               "arguments" := if args.Some? then args.value else Object(map[])], Null, None))
    else if tag == TAG_RESPONSE_SUCCESS then
      match SystemMeta(env, META_RESULT)
      case None => Failure(MissingMeta(META_RESULT))
      case Some(result) => Success(RpcMessage("2.0", RequestId(env), "", map[], result, None))
    else if tag == TAG_RESPONSE_ERROR then
      match SystemMeta(env, META_CODE)
      case None => Failure(MissingMeta(META_CODE))
      case Some(raw) =>
        match ParseErrorCode(raw)
        case None => Failure(InvalidMeta(META_CODE))
        case Some(code) =>
          var message := SystemMetaString(env, META_MESSAGE);
          if Blank(message) then Failure(MissingMeta(META_MESSAGE))
          else Success(RpcMessage("2.0", RequestId(env), "", map[], Null, Some(RpcError(code, message))))
    else Failure(UnsupportedTag(tag))
  }

  /** Emit as the program runs it: the message is filled in place. */
  method EmitInPlace(env: Envelope) returns (r: Result<RpcMessage, AdapterError>)
    ensures r == Emit(env)
  {
    hide Blank, EffectiveTag, ParseErrorCode;
    var msg := RpcMessage("2.0", Null, "", map[], Null, None);
    var tag := EffectiveTag(env);
    if tag == TAG_REQUEST_ACTION {
      var action := SystemMetaString(env, META_ACTION);
      if Blank(action) {
        return Failure(MissingMeta(META_ACTION));
      }
      msg := msg.(id := RequestId(env), rpcMethod := "tools/call");
      msg := msg.(params := map["name" := Str(action)]);
      var args := SystemMeta(env, META_ARGS);
      if args.Some? {
        msg := msg.(params := msg.params["arguments" := args.value]);
      } else {
        msg := msg.(params := msg.params["arguments" := Object(map[])]);
      }
    } else if tag == TAG_RESPONSE_SUCCESS {
      msg := msg.(id := RequestId(env));
      var result := SystemMeta(env, META_RESULT);
      if result.None? {
        return Failure(MissingMeta(META_RESULT));
      }
      msg := msg.(result := result.value);
    } else if tag == TAG_RESPONSE_ERROR {
      var raw := SystemMeta(env, META_CODE);
      if raw.None? {
        return Failure(MissingMeta(META_CODE));
      }
      var code := ParseErrorCode(raw.value);
      if code.None? {
        return Failure(InvalidMeta(META_CODE));
      }
      var message := SystemMetaString(env, META_MESSAGE);
      if Blank(message) {
        return Failure(MissingMeta(META_MESSAGE));
      }
      msg := msg.(id := RequestId(env));
      msg := msg.(error := Some(RpcError(code.value, message)));
    } else {
      return Failure(UnsupportedTag(tag));
    }
    return Success(msg);
  }

  /** A message as it arrives at the other end of the wire. */
  function Received(msg: RpcMessage): RpcMessage {
    msg.(id := Decoded(msg.id), params := DecodedFields(msg.params), result := Decoded(msg.result))
  }
}
