/**
  What the three adapters make of envelopes: which ones can be sent, and what the message says on the wire, field by
  field, in the words of the protocols.
 */
module Emissions {
  import opened Wrappers
  import opened Text
  import opened Envelopes
  import opened Adapters
  import Mcp
  import Grpc
  import A2a

  /** A note of the envelope, if it is a text. */
  function NoteText(env: Envelope, key: string): string {
    if key in env.metadata && env.metadata[key].Str? then env.metadata[key].s else ""
  }

  /** The request an envelope answers: the one it notes, or else itself. */
  function Answers(env: Envelope): Value {
    if "_request_id" in env.metadata && !env.metadata["_request_id"].Null? then env.metadata["_request_id"]
    else Str(env.id)
  }

  /** An error code is a number, or a text that is a decimal number. */
  lemma Codes(v: Value, i: Int64)
    ensures ParseErrorCode(Int(i)) == Some(i) && ParseErrorCode(Str(Itoa(i))) == Some(i)
    ensures v.Null? || v.Bool? || v.List? || v.Object? ==> ParseErrorCode(v).None?
  {
    hide Itoa, Atoi;
    AtoiItoa(i);
  }

  /** The fraction of a number is dropped, towards zero. */
  lemma FractionIsDropped(x: real, i: Int64)
    requires if 0.0 <= x then i as real <= x < i as real + 1.0 else i as real - 1.0 < x <= i as real
    ensures ParseErrorCode(Float(x)) == Some(i)
  {
    if 0.0 <= x {
      assert x.Floor == i;
    } else {
      assert (-x).Floor + (i as int) == 0;
    }
  }

  predicate HasCodeAndMessage(env: Envelope) {
    && "_code" in env.metadata && ParseErrorCode(env.metadata["_code"]).Some? && Trim(NoteText(env, "_message")) != ""
  }

  function CodeOf(env: Envelope): Int64 {
    if "_code" in env.metadata && ParseErrorCode(env.metadata["_code"]).Some?
    then ParseErrorCode(env.metadata["_code"]).value else 0
  }

  // ---------------------------------------------------------------------------------------------
  // MCP
  // ---------------------------------------------------------------------------------------------

  /** An action with a name, a success with a result, and an error with a code and a message. */
  predicate McpSendable(env: Envelope) {
    var tag := EffectiveTag(env);
    || (tag == "request.action" && Trim(NoteText(env, "_action")) != "")
    || (tag == "response.success" && "_result" in env.metadata)
    || (tag == "response.error" && HasCodeAndMessage(env))
  }

  lemma McpSends(env: Envelope)
    ensures var r := Mcp.Emit(env);
            && (r.Success? <==> McpSendable(env))
            && (r.Success? ==>
                  && r.value.jsonrpc == "2.0" && r.value.id == Answers(env)
                  && match EffectiveTag(env)
                     case "request.action" =>
                       && r.value.rpcMethod == "tools/call" && r.value.result.Null? && r.value.error.None?
                       && r.value.params ==
                          map["name" := Str(NoteText(env, "_action")),
                              "arguments" := if "_args" in env.metadata then env.metadata["_args"] else Object(map[])]
                     case "response.success" =>
                       && r.value.rpcMethod == "" && r.value.params == map[] && r.value.error.None?
                       && r.value.result == env.metadata["_result"]
                     case _ =>
                       && r.value.rpcMethod == "" && r.value.params == map[] && r.value.result.Null?
                       && r.value.error == Some(Mcp.RpcError(CodeOf(env), NoteText(env, "_message"))))
  {
    hide Trim, EffectiveTag, ParseErrorCode;
  }

  // ---------------------------------------------------------------------------------------------
  // gRPC
  // ---------------------------------------------------------------------------------------------

  /** The service before the first slash of an action, and the method behind it. */
  function Service(action: string): string {
    Trim(action[..IndexOf(action, '/')])
  }

  function Method(action: string): string {
    Trim(if IndexOf(action, '/') < |action| then action[IndexOf(action, '/') + 1..] else "")
  }

  predicate ObjectOrNone(env: Envelope, key: string) {
    key in env.metadata ==> env.metadata[key].Object? || env.metadata[key].Null?
  }

  function ObjectIn(env: Envelope, key: string): Fields {
    if key in env.metadata && env.metadata[key].Object? then env.metadata[key].fields else map[]
  }

  /** The text of a note, or the envelope's own id. */
  function TextOrId(env: Envelope, key: string): string {
    if Trim(NoteText(env, key)) != "" then NoteText(env, key) else env.id
  }

  /** An action that names a service and a method and has an object for its arguments, a success whose result is an
      object, an error with a code and a message, and progress whose update is an object. Without an update the content
      must have no fields. */
  predicate GrpcSendable(lib: Library, env: Envelope) {
    var tag, action := EffectiveTag(env), Trim(NoteText(env, "_action"));
    if tag == "request.action" then Service(action) != "" && Method(action) != "" && ObjectOrNone(env, "_args")
    else if tag == "response.success" then "_result" in env.metadata && ObjectOrNone(env, "_result")
    else if tag == "response.error" then HasCodeAndMessage(env)
    else
      && tag[..IndexOf(tag, '.')] == "progress"
      && if "_update" in env.metadata then ObjectOrNone(env, "_update")
         else env.content == "" || lib.parse(env.content).None? || lib.parse(env.content).value == map[]
  }

  /** The update goes out with the percentage in it, if it has no progress of its own and the percentage is a number. */
  function UpdateSent(env: Envelope): Fields {
    var update := ObjectIn(env, "_update");
    if "progress" in update || "_percentage" !in env.metadata then update
    else match env.metadata["_percentage"]
         case Float(x) => update["progress" := Float(x)]
         case Int(i) => update["progress" := Float(i as real)]
         case _ => update
  }

  function GrpcSent(env: Envelope): Grpc.GrpcMessage {
    var tag, action := EffectiveTag(env), Trim(NoteText(env, "_action"));
    var request := TextOrId(env, "_request_id");
    if tag == "request.action" then
      Grpc.GrpcMessage("unary", Service(action), Method(action), request, "", "", 0, "", Some(ObjectIn(env, "_args")))
    else if tag == "response.success" then
      Grpc.GrpcMessage("unary", "", "", request, "", "OK", 0, "", Some(ObjectIn(env, "_result")))
    else if tag == "response.error" then
      Grpc.GrpcMessage("unary", "", "", request, "", "ERROR", CodeOf(env), NoteText(env, "_message"), None)
    else
      Grpc.GrpcMessage("stream", "", "", request, TextOrId(env, "_stream_id"), "", 0, "", Some(UpdateSent(env)))
  }

  lemma GrpcSends(lib: Library, env: Envelope)
    ensures var r := Grpc.Emit(lib, env);
            && (r.Success? <==> GrpcSendable(lib, env))
            && (r.Success? ==> r.value == GrpcSent(env))
  {
    hide Trim, EffectiveTag, ParseErrorCode, IndexOf, Grpc.EmitAction, Service, Method;
    SendsAction(env);
  }

  lemma SendsAction(env: Envelope)
    ensures var r, action := Grpc.EmitAction(env), Trim(NoteText(env, "_action"));
            && (r.Success? <==> Service(action) != "" && Method(action) != "" && ObjectOrNone(env, "_args"))
            && (r.Success? ==>
                  r.value == Grpc.GrpcMessage("unary", Service(action), Method(action), TextOrId(env, "_request_id"),
                                              "", "", 0, "", Some(ObjectIn(env, "_args"))))
  {
    hide Trim;
    assert Trim("") == "" by {
      TrimUnchanged("");
    }
  }

  /** The update of progress is the one thing that sending changes in the envelope: the percentage is in it afterwards. */
  lemma SendingChanges(env: Envelope)
    ensures var after, tag := Grpc.AfterEmit(env), EffectiveTag(env);
            && after == env.(metadata := after.metadata)
            && (forall key :: key != "_update" ==> SystemMeta(after, key) == SystemMeta(env, key))
            && (if tag[..IndexOf(tag, '.')] == "progress" && "_update" in env.metadata && env.metadata["_update"].Object?
                then SystemMeta(after, "_update") == Some(Object(UpdateSent(env))) else after == env)
  {
    hide EffectiveTag;
    var tag := EffectiveTag(env);
    if tag in [TAG_REQUEST_ACTION, TAG_RESPONSE_SUCCESS, TAG_RESPONSE_ERROR] {
      assert tag[0] == 'r';
      assert tag[..IndexOf(tag, '.')] != "progress" by {
        if tag[..IndexOf(tag, '.')] == "progress" {
          assert tag[..IndexOf(tag, '.')][0] == tag[0];
        }
      }
    }
  }

  // ---------------------------------------------------------------------------------------------
  // A2A
  // ---------------------------------------------------------------------------------------------

  /** The content as an object, if it is the text of one. */
  function ContentOf(lib: Library, env: Envelope): Fields {
    if env.content == "" || lib.parse(env.content).None? then map[] else lib.parse(env.content).value
  }

  function ContentText(lib: Library, env: Envelope, key: string): string {
    var content := ContentOf(lib, env);
    if key !in content || content[key].Null? then ""
    else if content[key].Str? then Trim(content[key].s)
    else Trim(lib.sprint(content[key]))
  }

  /** The text of a request that is sent out: its message, or what its content says, or its action, or its content as it
      is, or its tag. */
  function TextSent(lib: Library, env: Envelope): string {
    var message, action := Trim(NoteText(env, "_message")), Trim(NoteText(env, "_action"));
    if message != "" then message
    else if ContentText(lib, env, "message") != "" then ContentText(lib, env, "message")
    else if action != "" then action
    else if env.content != "" then env.content
    else EffectiveTag(env)
  }

  function MessageSent(lib: Library, env: Envelope): Fields {
    var task, context := Trim(NoteText(env, "_task_id")), ContentText(lib, env, "context_id");
    var message := map["role" := Str("user"),
                       "parts" := List([Object(map["type" := Str("text"), "text" := Str(TextSent(lib, env))])]),
                       "messageId" := Str(env.id)];
    var message := if task == "" then message else message["taskId" := Str(task)];
    if context == "" then message else message["contextId" := Str(context)]
  }

  /** The task an update is about: the one noted, or else the request, or else the envelope itself. */
  function TaskSent(env: Envelope): string {
    if Trim(NoteText(env, "_task_id")) != "" then Trim(NoteText(env, "_task_id"))
    else if Trim(NoteText(env, "_request_id")) != "" then Trim(NoteText(env, "_request_id"))
    else env.id
  }

  /** The result of a failure holds the code and the message, as far as there are any. */
  function FailureSent(env: Envelope): Fields {
    var code: Fields := if "_code" in env.metadata then map["code" := env.metadata["_code"]] else map[];
    if NoteText(env, "_message") == "" then code else code["message" := Str(NoteText(env, "_message"))]
  }

  function UpdateParams(env: Envelope, status: string, result: Option<Value>): Fields {
    var params := map["taskId" := Str(TaskSent(env)), "status" := Str(status)];
    if result.Some? then params["result" := result.value] else params
  }

  /** Requests go out as messages; successes, errors and progress as updates of a task. */
  function A2aSent(lib: Library, env: Envelope): (string, Fields) {
    var tag, content := EffectiveTag(env), ContentOf(lib, env);
    var result := if "_result" in env.metadata then Some(env.metadata["_result"]) else None;
    if "request." <= tag then ("message/send", map["message" := Object(MessageSent(lib, env))])
    else if tag == "response.success" then ("task/update", UpdateParams(env, "completed", result))
    else if tag == "response.error" then
      ("task/update", UpdateParams(env, "failed",
                                   if FailureSent(env) == map[] then None else Some(Object(FailureSent(env)))))
    else
      ("task/update", UpdateParams(env, "in_progress",
                                   if result.Some? then result
                                   else if content == map[] then None
                                   else if "progress" in content then Some(content["progress"])
                                   else Some(Object(content))))
  }

  lemma A2aSends(lib: Library, env: Envelope)
    ensures var r, tag := A2a.Emit(lib, env), EffectiveTag(env);
            && (r.Success? <==> "request." <= tag || tag in ["response.success", "response.error"] || "progress." <= tag)
            && (r.Success? ==> r.value == A2a.A2aMessage(A2aSent(lib, env).0, Answers(env), A2aSent(lib, env).1))
  {
    hide Trim, EffectiveTag, MessageSent, A2a.OutboundMessage;
    SendsMessage(lib, env);
  }

  lemma SendsMessage(lib: Library, env: Envelope)
    ensures A2a.OutboundMessage(lib, env) == MessageSent(lib, env)
  {
    hide Trim, EffectiveTag, ContentText, A2a.Param;
    SaysInContent(lib, env, "message");
    SaysInContent(lib, env, "context_id");
  }

  lemma SaysInContent(lib: Library, env: Envelope, key: string)
    ensures A2a.Param(lib, A2a.ContentFields(lib, env.content), key) == ContentText(lib, env, key)
  {
    hide Trim;
    assert Trim("") == "" by {
      TrimUnchanged("");
    }
  }
}
