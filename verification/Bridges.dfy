/**
  Envelopes that travel: out through one adapter's Emit, over the wire, and in through the same adapter's Ingest, any
  number of times and over any mix of MCP and gRPC.
 */
module Bridges {
  import opened Wrappers
  import opened Text
  import opened Uuids
  import opened Envelopes
  import opened Adapters
  import Mcp
  import Grpc

  datatype Protocol = OverMcp | OverGrpc

  datatype Hop = Hop(protocol: Protocol, arrival: Arrival)

  function Cross(lib: Library, env: Envelope, hop: Hop): Result<Envelope, AdapterError> {
    match hop.protocol
    case OverMcp =>
      (match Mcp.Emit(env)
       case Failure(e) => Failure(e)
       case Success(msg) => Mcp.Ingest(lib, Mcp.Received(msg), hop.arrival))
    case OverGrpc =>
      (match Grpc.Emit(lib, env)
       case Failure(e) => Failure(e)
       case Success(msg) => Grpc.Ingest(Grpc.Received(msg), hop.arrival))
  }

  function Travel(lib: Library, env: Envelope, hops: seq<Hop>): Result<Envelope, AdapterError> {
    if hops == [] then Success(env)
    else
      match Travel(lib, env, hops[..|hops| - 1])
      case Failure(e) => Failure(e)
      case Success(env') => Cross(lib, env', hops[|hops| - 1])
  }

  // ---------------------------------------------------------------------------------------------
  // What a hop preserves, and when
  // ---------------------------------------------------------------------------------------------

  predicate Carries(env: Envelope, key: string, value: Value) {
    key in env.metadata && env.metadata[key] == value
  }

  /** What an answer is to: the request id in its metadata, if there is one. */
  predicate AnswersTo(env: Envelope, id: Option<string>) {
    if id.None? then META_REQUEST_ID !in env.metadata else Carries(env, META_REQUEST_ID, Str(id.value))
  }

  /** An error response: its request id, the number its code stands for, and its message. */
  predicate IsError(env: Envelope, id: Option<string>, code: Int64, message: string) {
    && EffectiveTag(env) == TAG_RESPONSE_ERROR
    && AnswersTo(env, id)
    && META_CODE in env.metadata && ParseErrorCode(env.metadata[META_CODE]) == Some(code)
    && Carries(env, META_MESSAGE, Str(message))
  }

  /** A success response whose result is an object. */
  predicate IsResult(env: Envelope, id: Option<string>, result: Fields) {
    && EffectiveTag(env) == TAG_RESPONSE_SUCCESS
    && AnswersTo(env, id)
    && Carries(env, META_RESULT, Object(result))
  }

  /** An action request whose arguments are an object. */
  predicate IsAction(env: Envelope, action: string, args: Fields) {
    && EffectiveTag(env) == TAG_REQUEST_ACTION
    && Carries(env, META_ACTION, Str(action))
    && Carries(env, META_ARGS, Object(args))
  }

  /** MCP keeps any id but the empty one; gRPC trims it as well. */
  predicate IdFits(protocol: Protocol, id: string) {
    id != "" && (protocol.OverGrpc? ==> Trim(id) == id)
  }

  /** MCP keeps any action that is not blank; gRPC needs a service and a method, trimmed, with a slash between. */
  predicate ActionFits(protocol: Protocol, action: string) {
    && !Blank(action)
    && (protocol.OverGrpc? ==>
          var slash := IndexOf(action, '/');
          && slash < |action|
          && action[..slash] != "" && Trim(action[..slash]) == action[..slash]
          && action[slash + 1..] != "" && Trim(action[slash + 1..]) == action[slash + 1..])
  }

  // ---------------------------------------------------------------------------------------------
  // Envelopes as the adapters make them
  // ---------------------------------------------------------------------------------------------

  function SourceAsId(sourceId: string): Option<string> {
    if sourceId == "" then None else Some(sourceId)
  }

  predicate FieldsAnswer(fields: Fields, id: Option<string>) {
    if id.None? then META_REQUEST_ID !in fields
    else META_REQUEST_ID in fields && fields[META_REQUEST_ID] == Str(id.value)
  }

  /** An error as either adapter makes it: it has the request id it came with, if there was one. */
  lemma ErrorIsMade(adapter: string, protocol: string, arrival: Arrival, sourceId: string, raw: Value, code: Int64,
                    message: string)
    requires adapter != "" && !IsSpace(adapter[0]) && ParseErrorCode(raw) == Some(code)
    ensures var fields := WithRequestId(map[META_TAG := Str(TAG_RESPONSE_ERROR), META_CODE := raw,
                                            META_MESSAGE := Str(message)], sourceId);
            var env := Made(adapter, protocol, arrival, sourceId, fields, "");
            Accept(env) == Success(env) && IsError(env, SourceAsId(sourceId), code, message)
  {
    hide Accept, EffectiveTag, Made, ParseErrorCode;
    var fields := WithRequestId(map[META_TAG := Str(TAG_RESPONSE_ERROR), META_CODE := raw,
                                    META_MESSAGE := Str(message)], sourceId);
    MadeCarries(adapter, protocol, arrival, sourceId, fields, "", TAG_RESPONSE_ERROR);
  }

  /** A success response as either adapter makes it. */
  lemma ResultIsMade(adapter: string, protocol: string, arrival: Arrival, sourceId: string, fields: Fields,
                     result: Fields)
    requires adapter != "" && !IsSpace(adapter[0]) && FieldsAnswer(fields, SourceAsId(sourceId))
    requires META_TAG in fields && fields[META_TAG] == Str(TAG_RESPONSE_SUCCESS)
    requires META_RESULT in fields && fields[META_RESULT] == Object(result)
    ensures var env := Made(adapter, protocol, arrival, sourceId, fields, "");
            Accept(env) == Success(env) && IsResult(env, SourceAsId(sourceId), result)
  {
    hide Accept, EffectiveTag, Made;
    MadeCarries(adapter, protocol, arrival, sourceId, fields, "", TAG_RESPONSE_SUCCESS);
  }

  /** An action request as either adapter makes it. */
  lemma ActionIsMade(adapter: string, protocol: string, arrival: Arrival, sourceId: string, action: string,
                     args: Fields)
    requires adapter != "" && !IsSpace(adapter[0])
    ensures var fields := map[META_TAG := Str(TAG_REQUEST_ACTION), META_ACTION := Str(action),
                              META_ARGS := Object(args)];
            var env := Made(adapter, protocol, arrival, sourceId, fields, "");
            Accept(env) == Success(env) && IsAction(env, action, args)
  {
    hide Accept, EffectiveTag, Made;
    var fields := map[META_TAG := Str(TAG_REQUEST_ACTION), META_ACTION := Str(action), META_ARGS := Object(args)];
    MadeCarries(adapter, protocol, arrival, sourceId, fields, "", TAG_REQUEST_ACTION);
  }

  // ---------------------------------------------------------------------------------------------
  // The id after a hop
  // ---------------------------------------------------------------------------------------------

  /** The request id after a hop: MCP sends the old one, or the envelope's own when there is none; gRPC sends the own one
      for a blank one too, and trims what it receives. An id that arrives empty is no id. */
  function NextId(protocol: Protocol, own: string, id: Option<string>): Option<string> {
    match protocol
    case OverMcp => SourceAsId(if id.None? then own else id.value)
    case OverGrpc => SourceAsId(Trim(if id.None? || Blank(id.value) then own else id.value))
  }

  lemma NextIdIff(protocol: Protocol, own: string, id: string)
    ensures NextId(protocol, own, Some(id)) == Some(id) <==> IdFits(protocol, id)
  {
    TrimIdempotent(own);
  }

  lemma MadeHasFreshId(adapter: string, protocol: string, arrival: Arrival, sourceId: string, fields: Fields,
                       content: string)
    ensures Made(adapter, protocol, arrival, sourceId, fields, content).id == ToString(arrival.id)
  {
  }

  // ---------------------------------------------------------------------------------------------
  // Over MCP
  // ---------------------------------------------------------------------------------------------

  lemma VersionIsNotBlank()
    ensures !Blank("2.0") && Blank("")
  {
  }

  lemma McpId(lib: Library, env: Envelope, id: Option<string>)
    requires AnswersTo(env, id)
    ensures var sent := Mcp.SourceId(lib, Decoded(RequestId(env)));
            RequestId(env).Str? && Decoded(RequestId(env)) == RequestId(env)
            && NextId(OverMcp, env.id, id) == SourceAsId(sent) && RequestId(env).s == sent
  {
  }

  lemma McpErrorCrosses(lib: Library, env: Envelope, arrival: Arrival, id: Option<string>, code: Int64,
                        message: string)
    requires IsError(env, id, code, message)
    ensures var r := Cross(lib, env, Hop(OverMcp, arrival));
            if Blank(message) then r.Failure?
            else r.Success? && r.value.id == ToString(arrival.id)
                 && IsError(r.value, NextId(OverMcp, env.id, id), code, message)
  {
    hide Blank, EffectiveTag, Atoi, Itoa, Accept, Made, WithRequestId, RequestId, NextId, ToString;
    VersionIsNotBlank();
    if !Blank(message) {
      McpId(lib, env, id);
      AtoiItoa(code);
      var sent := RequestId(env).s;
      var fields := WithRequestId(map[META_TAG := Str(TAG_RESPONSE_ERROR), META_CODE := Str(Itoa(code)),
                                      META_MESSAGE := Str(message)], sent);
      ErrorIsMade(Mcp.NAME, Mcp.PROTOCOL, arrival, sent, Str(Itoa(code)), code, message);
      MadeHasFreshId(Mcp.NAME, Mcp.PROTOCOL, arrival, sent, fields, "");
    }
  }

  lemma McpResultCrosses(lib: Library, env: Envelope, arrival: Arrival, id: Option<string>, result: Fields)
    requires IsResult(env, id, result)
    ensures var r := Cross(lib, env, Hop(OverMcp, arrival));
            r.Success? && r.value.id == ToString(arrival.id)
            && IsResult(r.value, NextId(OverMcp, env.id, id), DecodedFields(result))
  {
    hide Blank, EffectiveTag, Accept, Made, DecodedFields, RequestId, NextId, ToString;
    VersionIsNotBlank();
    DecodedObject(result);
    McpId(lib, env, id);
    var sent := RequestId(env).s;
    var tagged := map[META_TAG := Str(TAG_RESPONSE_SUCCESS)];
    var fields := WithRequestId(tagged, sent)[META_RESULT := Object(DecodedFields(result))];
    ResultIsMade(Mcp.NAME, Mcp.PROTOCOL, arrival, sent, fields, DecodedFields(result));
    MadeHasFreshId(Mcp.NAME, Mcp.PROTOCOL, arrival, sent, fields, "");
  }

  lemma McpReadsAction(lib: Library, msg: Mcp.RpcMessage, action: string, args: Fields)
    requires msg.error.None? && msg.result.Null? && msg.id != Null && msg.rpcMethod == "tools/call" && !Blank(action)
    requires msg.params == map["name" := Str(action), "arguments" := Object(args)]
    ensures Mcp.Reading(lib, Mcp.Received(msg)) ==
            Success((map[META_TAG := Str(TAG_REQUEST_ACTION), META_ACTION := Str(action),
                         META_ARGS := Object(DecodedFields(args))], ""))
  {
    hide Blank;
    DecodedObject(args);
    var params := DecodedFields(msg.params);
    assert params["name"] == Str(action) && params["arguments"] == Object(DecodedFields(args));
  }

  lemma McpActionCrosses(lib: Library, env: Envelope, arrival: Arrival, action: string, args: Fields)
    requires IsAction(env, action, args)
    ensures var r := Cross(lib, env, Hop(OverMcp, arrival));
            if Blank(action) then r.Failure? else r.Success? && IsAction(r.value, action, DecodedFields(args))
  {
    hide Blank, EffectiveTag, Accept, Made, Mcp.Reading, DecodedFields;
    VersionIsNotBlank();
    if !Blank(action) {
      var msg := Mcp.Emit(env).value;
      CallIsNotBlank();
      McpReadsAction(lib, msg, action, args);
      ActionIsMade(Mcp.NAME, Mcp.PROTOCOL, arrival, Mcp.SourceId(lib, Mcp.Received(msg).id), action,
                   DecodedFields(args));
    }
  }

  lemma CallIsNotBlank()
    ensures !Blank("tools/call")
  {
  }

  // ---------------------------------------------------------------------------------------------
  // Over gRPC
  // ---------------------------------------------------------------------------------------------

  lemma GrpcWords()
    ensures Trim("unary") == "unary" && Trim("stream") == "stream" && Trim("") == ""
    ensures Trim("OK") == "OK" && Trim("ERROR") == "ERROR"
  {
    hide Trim;
    TrimUnchanged("unary");
    TrimUnchanged("stream");
    TrimUnchanged("OK");
    TrimUnchanged("ERROR");
    TrimUnchanged("");
  }

  lemma GrpcId(env: Envelope, id: Option<string>)
    requires AnswersTo(env, id)
    ensures NextId(OverGrpc, env.id, id) == SourceAsId(Trim(Grpc.OrOwnId(env, META_REQUEST_ID)))
  {
    hide Trim;
    GrpcWords();
  }

  lemma GrpcReadsError(msg: Grpc.GrpcMessage)
    requires msg.kind == "unary" && msg.status == "ERROR" && msg.service == msg.rpcMethod == ""
    ensures Grpc.Validate(msg) == None
    ensures Grpc.Reading(msg) ==
            Success(WithRequestId(map[META_TAG := Str(TAG_RESPONSE_ERROR), META_CODE := Int(msg.code),
                                      META_MESSAGE := Str(msg.message)], Trim(msg.requestId)))
  {
    hide Trim;
    GrpcWords();
  }

  lemma GrpcReadsResult(msg: Grpc.GrpcMessage)
    requires msg.kind == "unary" && msg.status == "OK" && msg.service == msg.rpcMethod == ""
    ensures Grpc.Validate(msg) == None
    ensures Grpc.Reading(msg) ==
            Success(WithRequestId(map[META_TAG := Str(TAG_RESPONSE_SUCCESS), META_RESULT := Object(Grpc.Body(msg))],
                                  Trim(msg.requestId)))
  {
    hide Trim;
    GrpcWords();
  }

  lemma GrpcReadsAction(msg: Grpc.GrpcMessage)
    requires msg.kind == "unary" && msg.status == "" && !Blank(msg.service) && !Blank(msg.rpcMethod)
    ensures Grpc.Validate(msg) == None
    ensures Grpc.Reading(msg) ==
            Success(map[META_TAG := Str(TAG_REQUEST_ACTION),
                        META_ACTION := Str(Trim(msg.service) + "/" + Trim(msg.rpcMethod)),
                        META_ARGS := Object(Grpc.Body(msg))])
  {
    hide Trim;
    GrpcWords();
  }

  lemma GrpcErrorCrosses(lib: Library, env: Envelope, arrival: Arrival, id: Option<string>, code: Int64,
                         message: string)
    requires IsError(env, id, code, message)
    ensures var r := Cross(lib, env, Hop(OverGrpc, arrival));
            if Blank(message) then r.Failure?
            else r.Success? && r.value.id == ToString(arrival.id)
                 && IsError(r.value, NextId(OverGrpc, env.id, id), code, message)
  {
    hide Blank, Trim, EffectiveTag, Atoi, Accept, Made, WithRequestId, Grpc.OrOwnId, Grpc.Validate, Grpc.Reading;
    hide NextId, ToString;
    GrpcId(env, id);
    var sent := Trim(Grpc.OrOwnId(env, META_REQUEST_ID));
    if !Blank(message) {
      GrpcReadsError(Grpc.Received(Grpc.Emit(lib, env).value));
      ErrorIsMade(Grpc.NAME, Grpc.PROTOCOL, arrival, sent, Int(code), code, message);
      var fields := WithRequestId(map[META_TAG := Str(TAG_RESPONSE_ERROR), META_CODE := Int(code),
                                      META_MESSAGE := Str(message)], sent);
      MadeHasFreshId(Grpc.NAME, Grpc.PROTOCOL, arrival, sent, fields, "");
    }
  }

  lemma GrpcResultCrosses(lib: Library, env: Envelope, arrival: Arrival, id: Option<string>, result: Fields)
    requires IsResult(env, id, result)
    ensures var r := Cross(lib, env, Hop(OverGrpc, arrival));
            r.Success? && r.value.id == ToString(arrival.id)
            && IsResult(r.value, NextId(OverGrpc, env.id, id), DecodedFields(result))
  {
    hide Blank, Trim, EffectiveTag, Accept, Made, DecodedFields, Grpc.OrOwnId, Grpc.Validate, Grpc.Reading;
    hide NextId, ToString;
    GrpcId(env, id);
    var sent := Trim(Grpc.OrOwnId(env, META_REQUEST_ID));
    GrpcReadsResult(Grpc.Received(Grpc.Emit(lib, env).value));
    EmptyBody(result);
    var fields := WithRequestId(map[META_TAG := Str(TAG_RESPONSE_SUCCESS),
                                    META_RESULT := Object(DecodedFields(result))], sent);
    ResultIsMade(Grpc.NAME, Grpc.PROTOCOL, arrival, sent, fields, DecodedFields(result));
    MadeHasFreshId(Grpc.NAME, Grpc.PROTOCOL, arrival, sent, fields, "");
  }

  lemma EmptyBody(fields: Fields)
    ensures fields == map[] ==> DecodedFields(fields) == map[]
  {
  }

  /** What gRPC makes of an action: service and method around the first slash, trimmed. */
  function GrpcAction(action: string): Option<string> {
    var t := Trim(action);
    var slash := IndexOf(t, '/');
    if slash == |t| || Blank(t[..slash]) || Blank(t[slash + 1..]) then None
    else Some(Trim(t[..slash]) + "/" + Trim(t[slash + 1..]))
  }

  lemma TrimmedJoint(s: string, m: string)
    requires '/' !in s && !Blank(s) && !Blank(m)
    ensures ActionFits(OverGrpc, Trim(s) + "/" + Trim(m))
  {
    TrimIdempotent(s);
    TrimIdempotent(m);
    TrimIsPart(s, '/');
    hide Trim;
    var action := Trim(s) + "/" + Trim(m);
    assert action[..|Trim(s)|] == Trim(s) && action[|Trim(s)| + 1..] == Trim(m);
    IndexOfUnique(action, '/', |Trim(s)|);
    TrimUnchanged(Trim(s));
    TrimUnchanged(Trim(m));
    assert !IsSpace(action[0]);
    VisibleIsNotBlank(action, 0);
  }

  /** The action that comes out of a gRPC hop has the normal form; it is the old one exactly when that had it. */
  lemma GrpcActionForm(action: string)
    ensures GrpcAction(action).Some? ==> ActionFits(OverGrpc, GrpcAction(action).value)
    ensures GrpcAction(action) == Some(action) <==> ActionFits(OverGrpc, action)
  {
    hide Trim;
    var t := Trim(action);
    var slash := IndexOf(t, '/');
    if GrpcAction(action).Some? {
      TrimmedJoint(t[..slash], t[slash + 1..]);
    }
    TrimUnchanged(action);
    if ActionFits(OverGrpc, action) {
      var i := IndexOf(action, '/');
      TrimUnchanged(action[..i]);
      TrimUnchanged(action[i + 1..]);
      assert action == action[..i] + "/" + action[i + 1..];
      assert t == action;
    }
  }

  /** Trimming brings no character in. */
  lemma TrimIsPart(s: string, c: char)
    requires c !in s
    ensures c !in Trim(s)
  {
    TrimLeftIsPart(s, c);
  }

  lemma {:induction false} TrimLeftIsPart(s: string, c: char)
    requires c !in s
    ensures c !in TrimLeft(s)
  {
    if s != "" && IsSpace(s[0]) {
      TrimLeftIsPart(s[1..], c);
    }
  }

  lemma GrpcActionCrosses(lib: Library, env: Envelope, arrival: Arrival, action: string, args: Fields)
    requires IsAction(env, action, args)
    ensures var r := Cross(lib, env, Hop(OverGrpc, arrival));
            if GrpcAction(action).None? then r.Failure?
            else r.Success? && IsAction(r.value, GrpcAction(action).value, DecodedFields(args))
  {
    hide Trim, EffectiveTag, Accept, Made, DecodedFields, Grpc.OrOwnId, IndexOf, Grpc.Validate, Grpc.Reading;
    EmptyBody(args);
    if GrpcAction(action).Some? {
      var t := Trim(action);
      var slash := IndexOf(t, '/');
      TrimIdempotent(t[..slash]);
      TrimIdempotent(t[slash + 1..]);
      var msg := Grpc.Received(Grpc.EmitAction(env).value);
      GrpcReadsAction(msg);
      ActionIsMade(Grpc.NAME, Grpc.PROTOCOL, arrival, Trim(msg.requestId), GrpcAction(action).value,
                   DecodedFields(args));
    }
  }

  // ---------------------------------------------------------------------------------------------
  // One hop, exactly
  // ---------------------------------------------------------------------------------------------

  lemma ErrorCrosses(lib: Library, env: Envelope, hop: Hop, id: Option<string>, code: Int64, message: string)
    requires IsError(env, id, code, message)
    ensures var r := Cross(lib, env, hop);
            if Blank(message) then r.Failure?
            else r.Success? && r.value.id == ToString(hop.arrival.id)
                 && IsError(r.value, NextId(hop.protocol, env.id, id), code, message)
  {
    hide Cross, IsError, Blank, Trim, NextId;
    match hop.protocol
    case OverMcp => McpErrorCrosses(lib, env, hop.arrival, id, code, message);
    case OverGrpc => GrpcErrorCrosses(lib, env, hop.arrival, id, code, message);
  }

  lemma ResultCrosses(lib: Library, env: Envelope, hop: Hop, id: Option<string>, result: Fields)
    requires IsResult(env, id, result)
    ensures var r := Cross(lib, env, hop);
            r.Success? && r.value.id == ToString(hop.arrival.id)
            && IsResult(r.value, NextId(hop.protocol, env.id, id), DecodedFields(result))
  {
    hide Cross, IsResult, Trim, DecodedFields, NextId;
    match hop.protocol
    case OverMcp => McpResultCrosses(lib, env, hop.arrival, id, result);
    case OverGrpc => GrpcResultCrosses(lib, env, hop.arrival, id, result);
  }

  function NextAction(protocol: Protocol, action: string): Option<string> {
    match protocol
    case OverMcp => if Blank(action) then None else Some(action)
    case OverGrpc => GrpcAction(action)
  }

  lemma ActionCrosses(lib: Library, env: Envelope, hop: Hop, action: string, args: Fields)
    requires IsAction(env, action, args)
    ensures var r := Cross(lib, env, hop);
            if NextAction(hop.protocol, action).None? then r.Failure?
            else r.Success? && IsAction(r.value, NextAction(hop.protocol, action).value, DecodedFields(args))
  {
    hide Cross, IsAction, Trim, DecodedFields, GrpcAction, Blank;
    match hop.protocol
    case OverMcp => McpActionCrosses(lib, env, hop.arrival, action, args);
    case OverGrpc => GrpcActionCrosses(lib, env, hop.arrival, action, args);
  }

  /** An error crosses with its id, code and message exactly when the message is not blank and the id fits. */
  lemma ErrorCrossesIff(lib: Library, env: Envelope, hop: Hop, id: string, code: Int64, message: string)
    requires IsError(env, Some(id), code, message)
    ensures Cross(lib, env, hop).Success? && IsError(Cross(lib, env, hop).value, Some(id), code, message)
            <==> !Blank(message) && IdFits(hop.protocol, id)
  {
    hide Cross, Blank, Trim, NextId, EffectiveTag, ToString;
    ErrorCrosses(lib, env, hop, Some(id), code, message);
    NextIdIff(hop.protocol, env.id, id);
  }

  /** A result crosses with its id exactly when the id fits; its numbers become floating-point numbers on the way. */
  lemma ResultCrossesIff(lib: Library, env: Envelope, hop: Hop, id: string, result: Fields)
    requires IsResult(env, Some(id), result)
    ensures Cross(lib, env, hop).Success? && IsResult(Cross(lib, env, hop).value, Some(id), DecodedFields(result))
            <==> IdFits(hop.protocol, id)
  {
    hide Cross, Trim, DecodedFields, NextId, EffectiveTag, ToString;
    ResultCrosses(lib, env, hop, Some(id), result);
    NextIdIff(hop.protocol, env.id, id);
  }

  /** An action crosses with its arguments exactly when it fits. */
  lemma ActionCrossesIff(lib: Library, env: Envelope, hop: Hop, action: string, args: Fields)
    requires IsAction(env, action, args)
    ensures Cross(lib, env, hop).Success? && IsAction(Cross(lib, env, hop).value, action, DecodedFields(args))
            <==> ActionFits(hop.protocol, action)
  {
    hide Cross, Trim, DecodedFields, EffectiveTag, GrpcAction;
    ActionCrosses(lib, env, hop, action, args);
    GrpcActionForm(action);
  }

  // ---------------------------------------------------------------------------------------------
  // Any number of hops
  // ---------------------------------------------------------------------------------------------

  /** The id of the envelope itself: every hop makes a new envelope. */
  function OwnAfter(own: string, hops: seq<Hop>): string {
    if hops == [] then own else ToString(hops[|hops| - 1].arrival.id)
  }

  function IdAfter(own: string, id: Option<string>, hops: seq<Hop>): Option<string> {
    if hops == [] then id
    else
      var n := |hops| - 1;
      NextId(hops[n].protocol, OwnAfter(own, hops[..n]), IdAfter(own, id, hops[..n]))
  }

  predicate AllFit(hops: seq<Hop>, id: string) {
    forall i :: 0 <= i < |hops| ==> IdFits(hops[i].protocol, id)
  }

  predicate Clean(id: string) {
    id != "" && Trim(id) == id
  }

  lemma {:induction false} TextIsVisible(u: Uuid, i: nat)
    requires i < 16
    ensures var text := TextFrom(u, i); text != "" && !IsSpace(text[|text| - 1])
    decreases 16 - i
  {
    if i < 15 {
      TextIsVisible(u, i + 1);
    } else {
      assert TextFrom(u, 16) == "";
    }
  }

  lemma FreshIdIsClean(u: Uuid)
    ensures Clean(ToString(u))
  {
    TextIsVisible(u, 0);
    assert !IsSpace(ToString(u)[0]);
    TrimUnchanged(ToString(u));
  }

  /** An id that does not fit a hop is not clean, and what comes out of the hop is. */
  lemma UnfitIsReplaced(protocol: Protocol, own: string, id: string)
    requires !IdFits(protocol, id)
    ensures !Clean(id)
    ensures var after := NextId(protocol, own, Some(id)); after.Some? ==> Clean(after.value)
  {
    hide Trim;
    CleanAfterGrpc(own, Some(id));
  }

  lemma AllFitSnoc(hops: seq<Hop>, id: string)
    requires hops != []
    ensures var n := |hops| - 1; AllFit(hops, id) <==> AllFit(hops[..n], id) && IdFits(hops[n].protocol, id)
  {
    hide IdFits;
    var n := |hops| - 1;
    forall i | 0 <= i < n ensures hops[..n][i] == hops[i] {
    }
  }

  /** An id is kept by hops that it fits. When it does not fit one of them it is not clean, and what replaces it is, so it
      never comes back. */
  lemma {:induction false} IdAfterIff(own: string, id: string, hops: seq<Hop>)
    ensures IdAfter(own, Some(id), hops) == Some(id) <==> AllFit(hops, id)
    ensures !AllFit(hops, id) ==>
              !Clean(id) && var after := IdAfter(own, Some(id), hops); after.Some? ==> Clean(after.value)
  {
    hide NextId, IdFits, Clean, AllFit, ToString;
    if hops == [] {
      assert AllFit(hops, id) by {
        NoneUnfit(id);
      }
    } else {
      var n := |hops| - 1;
      var before, own' := IdAfter(own, Some(id), hops[..n]), OwnAfter(own, hops[..n]);
      IdAfterIff(own, id, hops[..n]);
      AllFitSnoc(hops, id);
      NextIdIff(hops[n].protocol, own', id);
      if !AllFit(hops[..n], id) {
        if n == 0 {
          NoneUnfit(id);
        }
        FreshIdIsClean(hops[n - 1].arrival.id);
        CleanStays(hops[n].protocol, own', before);
      } else if !IdFits(hops[n].protocol, id) {
        UnfitIsReplaced(hops[n].protocol, own', id);
      }
    }
  }

  lemma NoneUnfit(id: string)
    ensures AllFit([], id)
  {
  }

  lemma CleanAfterGrpc(own: string, id: Option<string>)
    ensures var after := NextId(OverGrpc, own, id); after.Some? ==> Clean(after.value)
  {
    TrimIdempotent(if id.None? || Blank(id.value) then own else id.value);
  }

  lemma CleanStays(protocol: Protocol, own: string, id: Option<string>)
    requires Clean(own) && (id.Some? ==> Clean(id.value))
    ensures var after := NextId(protocol, own, id); after.Some? ==> Clean(after.value)
  {
    CleanAfterGrpc(own, id);
  }

  /** However far an error travels, its code and message stay, and its id is what the hops make of it. */
  lemma {:induction false} ErrorsTravel(lib: Library, env: Envelope, hops: seq<Hop>, id: Option<string>, code: Int64,
                                        message: string)
    requires IsError(env, id, code, message)
    ensures var r := Travel(lib, env, hops);
            if Blank(message) && hops != [] then r.Failure?
            else r.Success? && r.value.id == OwnAfter(env.id, hops)
                 && IsError(r.value, IdAfter(env.id, id, hops), code, message)
  {
    hide Cross, IsError, Blank, Trim, NextId, ToString;
    if hops != [] {
      var n := |hops| - 1;
      ErrorsTravel(lib, env, hops[..n], id, code, message);
      var before := Travel(lib, env, hops[..n]);
      if before.Success? {
        ErrorCrosses(lib, before.value, hops[n], IdAfter(env.id, id, hops[..n]), code, message);
      }
    }
  }

  /** An error arrives with its id, code and message exactly when it went nowhere, or its message is not blank and its id
      fits every hop. */
  lemma ErrorsTravelIff(lib: Library, env: Envelope, hops: seq<Hop>, id: string, code: Int64, message: string)
    requires IsError(env, Some(id), code, message)
    ensures Travel(lib, env, hops).Success? && IsError(Travel(lib, env, hops).value, Some(id), code, message)
            <==> hops == [] || (!Blank(message) && AllFit(hops, id))
  {
    hide Travel, Blank, IdAfter, OwnAfter, AllFit, EffectiveTag;
    NoneUnfit(id);
    NoHops(env.id, Some(id), lib, env);
    ErrorsTravel(lib, env, hops, Some(id), code, message);
    IdAfterIff(env.id, id, hops);
  }

  lemma NoHops(own: string, id: Option<string>, lib: Library, env: Envelope)
    ensures IdAfter(own, id, []) == id && Travel(lib, env, []) == Success(env)
  {
  }

  /** However far a result travels, it stays, as the first wire delivered it, and its id is what the hops make of it. */
  lemma {:induction false} ResultsTravel(lib: Library, env: Envelope, hops: seq<Hop>, id: Option<string>,
                                         result: Fields)
    requires IsResult(env, id, result)
    ensures var r := Travel(lib, env, hops);
            r.Success? && r.value.id == OwnAfter(env.id, hops)
            && IsResult(r.value, IdAfter(env.id, id, hops), if hops == [] then result else DecodedFields(result))
  {
    hide Cross, IsResult, Trim, DecodedFields, NextId, ToString;
    if hops != [] {
      var n := |hops| - 1;
      ResultsTravel(lib, env, hops[..n], id, result);
      var before := Travel(lib, env, hops[..n]).value;
      ResultCrosses(lib, before, hops[n], IdAfter(env.id, id, hops[..n]),
                    if n == 0 then result else DecodedFields(result));
      DecodedFieldsTwice(result);
    }
  }

  /** A result arrives with its id exactly when the id fits every hop. */
  lemma ResultsTravelIff(lib: Library, env: Envelope, hops: seq<Hop>, id: string, result: Fields)
    requires IsResult(env, Some(id), result)
    ensures Travel(lib, env, hops).Success?
            && IsResult(Travel(lib, env, hops).value, Some(id), if hops == [] then result else DecodedFields(result))
            <==> AllFit(hops, id)
  {
    hide Travel, IdAfter, OwnAfter, AllFit, EffectiveTag, DecodedFields;
    ResultsTravel(lib, env, hops, Some(id), result);
    IdAfterIff(env.id, id, hops);
  }

  function ActionAfter(action: string, hops: seq<Hop>): Option<string> {
    if hops == [] then Some(action)
    else
      match ActionAfter(action, hops[..|hops| - 1])
      case None => None
      case Some(a) => NextAction(hops[|hops| - 1].protocol, a)
  }

  /** However far an action travels, its arguments stay, and its name is what the hops make of it. */
  lemma {:induction false} ActionsTravel(lib: Library, env: Envelope, hops: seq<Hop>, action: string, args: Fields)
    requires IsAction(env, action, args)
    ensures var r, after := Travel(lib, env, hops), ActionAfter(action, hops);
            if after.None? then r.Failure?
            else r.Success? && IsAction(r.value, after.value, if hops == [] then args else DecodedFields(args))
  {
    hide Cross, IsAction, Trim, DecodedFields, NextAction;
    if hops != [] {
      var n := |hops| - 1;
      ActionsTravel(lib, env, hops[..n], action, args);
      var before := Travel(lib, env, hops[..n]);
      if before.Success? {
        ActionCrosses(lib, before.value, hops[n], ActionAfter(action, hops[..n]).value,
                      if n == 0 then args else DecodedFields(args));
      }
      DecodedFieldsTwice(args);
    }
  }

  predicate AllTake(hops: seq<Hop>, action: string) {
    forall i :: 0 <= i < |hops| ==> ActionFits(hops[i].protocol, action)
  }

  lemma {:induction false} ActionAfterIff(action: string, hops: seq<Hop>)
    ensures ActionAfter(action, hops) == Some(action) <==> AllTake(hops, action)
    ensures !AllTake(hops, action) ==>
              !ActionFits(OverGrpc, action)
              && var after := ActionAfter(action, hops); after.Some? ==> ActionFits(OverGrpc, after.value)
  {
    hide GrpcAction, Trim;
    if hops != [] {
      var n := |hops| - 1;
      ActionAfterIff(action, hops[..n]);
      assert AllTake(hops, action) <==> AllTake(hops[..n], action) && ActionFits(hops[n].protocol, action) by {
        forall i | 0 <= i < n ensures hops[..n][i] == hops[i] {
        }
      }
      GrpcActionForm(action);
      var before := ActionAfter(action, hops[..n]);
      if before.Some? {
        GrpcActionForm(before.value);
      }
    }
  }

  /** An action arrives with its name and arguments exactly when the name fits every hop. */
  lemma ActionsTravelIff(lib: Library, env: Envelope, hops: seq<Hop>, action: string, args: Fields)
    requires IsAction(env, action, args)
    ensures Travel(lib, env, hops).Success?
            && IsAction(Travel(lib, env, hops).value, action, if hops == [] then args else DecodedFields(args))
            <==> AllTake(hops, action)
  {
    hide Travel, ActionAfter, AllTake, EffectiveTag, DecodedFields;
    ActionsTravel(lib, env, hops, action, args);
    ActionAfterIff(action, hops);
  }
}
