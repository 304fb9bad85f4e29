/** The gRPC-over-JSON adapter: unary and stream messages to envelopes and back. */
module Grpc {
  import opened Wrappers
  import opened Text
  import opened Envelopes
  import opened Adapters

  /** A decoded message; a missing text is empty, a missing code is zero. */
  datatype GrpcMessage = GrpcMessage(
    kind: string, service: string, rpcMethod: string, requestId: string, streamId: string, status: string,
    code: Int64, message: string, body: Option<Fields>)

  const NAME := "grpc"
  const PROTOCOL := "grpc-json"
  const PROGRESS := "progress"

  function Validate(msg: GrpcMessage): Option<AdapterError> {
    var kind := Trim(msg.kind);
    if kind == "" then Some(MissingField("type"))
    else if kind == "unary" then
      var hasService, hasMethod, hasStatus := !Blank(msg.service), !Blank(msg.rpcMethod), !Blank(msg.status);
      if hasService != hasMethod then Some(MissingField("service+method"))
      else if !hasStatus && !hasService then Some(MissingField("status"))
      else if hasStatus && Trim(msg.status) != "OK" && Trim(msg.status) != "ERROR" then Some(InvalidField("status"))
      else None
    else if kind == "stream" then
      if Blank(msg.streamId) then Some(MissingField("stream_id")) else None
    else Some(InvalidField("type"))
  }

  function NumericAsFloat(raw: Value): Option<real> {
    match raw
    case Int(i) => Some(i as real)
    case Float(x) => Some(x)
    case _ => None
  }

  /** An absent body is the empty object. */
  function Body(msg: GrpcMessage): Fields {
    if msg.body.Some? then msg.body.value else map[]
  }

  function WithPercentage(fields: Fields, body: Fields): Fields {
    if PROGRESS in body && NumericAsFloat(body[PROGRESS]).Some?
    then fields[META_PERCENTAGE := Float(NumericAsFloat(body[PROGRESS]).value)]
    else fields
  }

  /** What a message says: the system metadata of its envelope. */
  function Reading(msg: GrpcMessage): Result<Fields, AdapterError> {
    var sourceId, kind, status := Trim(msg.requestId), Trim(msg.kind), Trim(msg.status);
    if kind == "unary" && !Blank(msg.service) && !Blank(msg.rpcMethod) && status == "" then
      Success(map[META_TAG := Str(TAG_REQUEST_ACTION),
                  META_ACTION := Str(Trim(msg.service) + "/" + Trim(msg.rpcMethod)), META_ARGS := Object(Body(msg))])
    else if kind == "unary" && status == "OK" then
      Success(WithRequestId(map[META_TAG := Str(TAG_RESPONSE_SUCCESS), META_RESULT := Object(Body(msg))], sourceId))
    else if kind == "unary" && status == "ERROR" then
      var fields := map[META_TAG := Str(TAG_RESPONSE_ERROR), META_CODE := Int(msg.code),
                        META_MESSAGE := Str(msg.message)];
      Success(WithRequestId(fields, sourceId))
    else if kind == "stream" then
      var fields := map[META_TAG := Str(TAG_PROGRESS_UPDATE), META_UPDATE := Object(Body(msg))];
      Success(WithRequestId(WithPercentage(fields, Body(msg)), sourceId)[META_STREAM_ID := Str(msg.streamId)])
    else Failure(Unsupported)
  }

  function Ingest(msg: GrpcMessage, arrival: Arrival): Result<Envelope, AdapterError> {
    match Validate(msg)
    case Some(e) => Failure(e)
    case None =>
      match Reading(msg)
      case Failure(e) => Failure(e)
      case Success(fields) => Accept(Made(NAME, PROTOCOL, arrival, Trim(msg.requestId), fields, ""))
  }

  /** Ingest as the program runs it: the envelope is filled in place, case by case. */
  method IngestInPlace(msg: GrpcMessage, arrival: Arrival) returns (r: Result<Envelope, AdapterError>)
    ensures r == Ingest(msg, arrival)
  {
    hide Blank, Trim, Sender, Recipient, AdapterInfo, IsValidTag;
    var invalid := Validate(msg);
    if invalid.Some? {
      return Failure(invalid.value);
    }
    var sourceId := Trim(msg.requestId);
    var env := new Draft(NAME, arrival);
    var kind, status := Trim(msg.kind), Trim(msg.status);
    if kind == "unary" && !Blank(msg.service) && !Blank(msg.rpcMethod) && status == "" {
      env.SetSystemMeta(META_TAG, Str(TAG_REQUEST_ACTION));
      env.SetSystemMeta(META_ACTION, Str(Trim(msg.service) + "/" + Trim(msg.rpcMethod)));
      if msg.body.Some? {
        env.SetSystemMeta(META_ARGS, Object(msg.body.value));
      } else {
        env.SetSystemMeta(META_ARGS, Object(map[]));
      }
    } else if kind == "unary" && status == "OK" {
      env.SetSystemMeta(META_TAG, Str(TAG_RESPONSE_SUCCESS));
      if msg.body.Some? {
        env.SetSystemMeta(META_RESULT, Object(msg.body.value));
      } else {
        env.SetSystemMeta(META_RESULT, Object(map[]));
      }
      if sourceId != "" {
        env.SetSystemMeta(META_REQUEST_ID, Str(sourceId));
      }
    } else if kind == "unary" && status == "ERROR" {
      env.SetSystemMeta(META_TAG, Str(TAG_RESPONSE_ERROR));
      env.SetSystemMeta(META_CODE, Int(msg.code));
      env.SetSystemMeta(META_MESSAGE, Str(msg.message));
      if sourceId != "" {
        env.SetSystemMeta(META_REQUEST_ID, Str(sourceId));
      }
    } else if kind == "stream" {
      env.SetSystemMeta(META_TAG, Str(TAG_PROGRESS_UPDATE));
      if msg.body.Some? {
        env.SetSystemMeta(META_UPDATE, Object(msg.body.value));
        if PROGRESS in msg.body.value {
          var percentage := NumericAsFloat(msg.body.value[PROGRESS]);
          if percentage.Some? {
            env.SetSystemMeta(META_PERCENTAGE, Float(percentage.value));
          }
        }
      } else {
        env.SetSystemMeta(META_UPDATE, Object(map[]));
      }
      if sourceId != "" {
        env.SetSystemMeta(META_REQUEST_ID, Str(sourceId));
      }
      env.SetSystemMeta(META_STREAM_ID, Str(msg.streamId));
    } else {
      return Failure(Unsupported);
    }
    env.SetAdapterMetadata(NAME, sourceId, PROTOCOL);
    return Accept(env.Sealed());
  }

  // ---------------------------------------------------------------------------------------------
  // Emit
  // ---------------------------------------------------------------------------------------------

  function OrOwnId(env: Envelope, key: string): string {
    var id := SystemMetaString(env, key);
    if Blank(id) then env.id else id
  }

  function NormalizeBody(raw: Value, key: string): Result<Fields, AdapterError> {
    match raw
    case Null => Success(map[])
    case Object(fields) => Success(fields)
    case _ => Failure(InvalidMeta(key))
  }

  /** The tag up to its first dot. */
  function TagFamily(tag: string): string {
    tag[..IndexOf(tag, '.')]
  }

  const NO_MESSAGE := GrpcMessage("", "", "", "", "", "", 0, "", None)

  /** The progress body before the percentage is added. Without an update, the content's fields are written into a map
      that was never made, which the program does not survive. */
  function ProgressBody(lib: Library, env: Envelope): Result<Fields, AdapterError> {
    match SystemMeta(env, META_UPDATE)
    case Some(raw) => NormalizeBody(raw, META_UPDATE)
    case None =>
      if env.content == "" then Success(map[])
      else
        match lib.parse(env.content)
        case None => Success(map[])
        case Some(fields) => if fields == map[] then Success(map[]) else Failure(NilMapWrite)
  }

  function PercentageAdded(env: Envelope, body: Fields): Fields {
    var percentage := SystemMeta(env, META_PERCENTAGE);
    if PROGRESS !in body && percentage.Some? && NumericAsFloat(percentage.value).Some?
    then body[PROGRESS := Float(NumericAsFloat(percentage.value).value)]
    else body
  }

  function EmitAction(env: Envelope): Result<GrpcMessage, AdapterError> {
    var action := Trim(SystemMetaString(env, META_ACTION));
    var slash := IndexOf(action, '/');
    if action == "" then Failure(MissingMeta(META_ACTION))
    else if slash == |action| || Blank(action[..slash]) || Blank(action[slash + 1..]) then
      Failure(InvalidMeta(META_ACTION))
    else
      var args := SystemMeta(env, META_ARGS);
      match if args.Some? then NormalizeBody(args.value, META_ARGS) else Success(map[])
      case Failure(e) => Failure(e)
      case Success(body) =>
        Success(NO_MESSAGE.(kind := "unary", service := Trim(action[..slash]), rpcMethod := Trim(action[slash + 1..]),
                            requestId := OrOwnId(env, META_REQUEST_ID), body := Some(body)))
  }

  function Emit(lib: Library, env: Envelope): Result<GrpcMessage, AdapterError> {
    var tag := EffectiveTag(env);
    if tag == TAG_REQUEST_ACTION then EmitAction(env)
    else if tag == TAG_RESPONSE_SUCCESS then
      match SystemMeta(env, META_RESULT)
      case None => Failure(MissingMeta(META_RESULT))
      case Some(raw) =>
        match NormalizeBody(raw, META_RESULT)
        case Failure(e) => Failure(e)
        case Success(body) =>
          Success(NO_MESSAGE.(kind := "unary", requestId := OrOwnId(env, META_REQUEST_ID), status := "OK",
                              body := Some(body)))
    else if tag == TAG_RESPONSE_ERROR then
      var message := SystemMetaString(env, META_MESSAGE);
      match SystemMeta(env, META_CODE)
      case None => Failure(MissingMeta(META_CODE))
      case Some(raw) =>
        if Blank(message) then Failure(MissingMeta(META_MESSAGE))
        else
          match ParseErrorCode(raw)
          case None => Failure(InvalidMeta(META_CODE))
          case Some(code) =>
            Success(NO_MESSAGE.(kind := "unary", requestId := OrOwnId(env, META_REQUEST_ID), status := "ERROR",
                                code := code, message := message))
    else if TagFamily(tag) == "progress" then
      match ProgressBody(lib, env)
      case Failure(e) => Failure(e)
      case Success(body) =>
        Success(NO_MESSAGE.(kind := "stream", requestId := OrOwnId(env, META_REQUEST_ID),
                            streamId := OrOwnId(env, META_STREAM_ID), body := Some(PercentageAdded(env, body))))
    else Failure(UnsupportedTag(tag))
  }

  /** The envelope after Emit: the body of a progress message is the envelope's own update, so the percentage that is
      written into the one is in the other as well. */
  function AfterEmit(env: Envelope): Envelope {
    var tag := EffectiveTag(env);
    if tag in [TAG_REQUEST_ACTION, TAG_RESPONSE_SUCCESS, TAG_RESPONSE_ERROR] || TagFamily(tag) != "progress" then env
    else
      match SystemMeta(env, META_UPDATE)
      case Some(Object(update)) =>
        env.(metadata := env.metadata[META_UPDATE := Object(PercentageAdded(env, update))])
      case _ => env
  }

  /** Emit as the program runs it: the message is filled in place, and so is the update it shares with the envelope. */
  method EmitInPlace(lib: Library, env: Envelope) returns (r: Result<GrpcMessage, AdapterError>, after: Envelope)
    ensures r == Emit(lib, env)
    ensures after == AfterEmit(env)
  {
    hide Blank, Trim, EffectiveTag, ParseErrorCode, IndexOf, TagFamily;
    after := env;
    var msg := NO_MESSAGE;
    var tag := EffectiveTag(env);
    if tag == TAG_REQUEST_ACTION {
      var action := Trim(SystemMetaString(env, META_ACTION));
      if action == "" {
        return Failure(MissingMeta(META_ACTION)), after;
      }
      var slash := IndexOf(action, '/');
      if slash == |action| || Blank(action[..slash]) || Blank(action[slash + 1..]) {
        return Failure(InvalidMeta(META_ACTION)), after;
      }
      msg := msg.(kind := "unary", service := Trim(action[..slash]), rpcMethod := Trim(action[slash + 1..]));
      msg := msg.(requestId := OrOwnId(env, META_REQUEST_ID));
      var args := SystemMeta(env, META_ARGS);
      if args.Some? {
        var body := NormalizeBody(args.value, META_ARGS);
        if body.Failure? {
          return Failure(body.error), after;
        }
        msg := msg.(body := Some(body.value));
      } else {
        msg := msg.(body := Some(map[]));
      }
    } else if tag == TAG_RESPONSE_SUCCESS {
      var raw := SystemMeta(env, META_RESULT);
      if raw.None? {
        return Failure(MissingMeta(META_RESULT)), after;
      }
      var body := NormalizeBody(raw.value, META_RESULT);
      if body.Failure? {
        return Failure(body.error), after;
      }
      msg := msg.(kind := "unary", requestId := OrOwnId(env, META_REQUEST_ID), status := "OK");
      msg := msg.(body := Some(body.value));
    } else if tag == TAG_RESPONSE_ERROR {
      var raw := SystemMeta(env, META_CODE);
      if raw.None? {
        return Failure(MissingMeta(META_CODE)), after;
      }
      var message := SystemMetaString(env, META_MESSAGE);
      if Blank(message) {
        return Failure(MissingMeta(META_MESSAGE)), after;
      }
      var code := ParseErrorCode(raw.value);
      if code.None? {
        return Failure(InvalidMeta(META_CODE)), after;
      }
      msg := msg.(kind := "unary", requestId := OrOwnId(env, META_REQUEST_ID), status := "ERROR");
      msg := msg.(code := code.value, message := message);
    } else if TagFamily(tag) == "progress" {
      msg := msg.(kind := "stream", requestId := OrOwnId(env, META_REQUEST_ID));
      msg := msg.(streamId := OrOwnId(env, META_STREAM_ID));
      var raw := SystemMeta(env, META_UPDATE);
      if raw.Some? {
        var body := NormalizeBody(raw.value, META_UPDATE);
        if body.Failure? {
          return Failure(body.error), after;
        }
        msg := msg.(body := Some(body.value));
      } else if env.content != "" {
        var content := lib.parse(env.content);
        if content.Some? && content.value != map[] {
          return Failure(NilMapWrite), after;
        }
      }
      if msg.body.None? {
        msg := msg.(body := Some(map[]));
      }
      if PROGRESS !in msg.body.value {
        var percentage := SystemMeta(env, META_PERCENTAGE);
        if percentage.Some? {
          var x := NumericAsFloat(percentage.value);
          if x.Some? {
            msg := msg.(body := Some(msg.body.value[PROGRESS := Float(x.value)]));
            if raw.Some? && raw.value.Object? {
              after := after.(metadata := after.metadata[META_UPDATE := Object(msg.body.value)]);
            }
          }
        }
      }
      assert raw.Some? && raw.value.Object? ==> env.metadata[META_UPDATE := raw.value] == env.metadata;
    } else {
      return Failure(UnsupportedTag(tag)), after;
    }
    return Success(msg), after;
  }

  /** Sharing the update does no harm to a second Emit: it says the same again. */
  lemma EmitsAgain(lib: Library, env: Envelope)
    ensures Emit(lib, AfterEmit(env)) == Emit(lib, env)
    ensures AfterEmit(AfterEmit(env)) == AfterEmit(env)
  {
    hide Blank, Trim, ParseErrorCode, IndexOf, TagFamily;
    var after := AfterEmit(env);
    assert EffectiveTag(after) == EffectiveTag(env);
    hide EffectiveTag;
    assert after != env ==> after.metadata[META_UPDATE := after.metadata[META_UPDATE]] == after.metadata;
  }

  /** A message as it arrives at the other end of the wire; an empty body is left out on the way. */
  function Received(msg: GrpcMessage): GrpcMessage {
    msg.(body := if Body(msg) == map[] then None else Some(DecodedFields(Body(msg))))
  }
}
